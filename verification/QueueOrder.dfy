/**
 One thread of the queue, one item at a time: over every run, old Agents included, as long
 as no item is added in front of a running one.
 */
module QueueOrder {
  import opened Options
  import opened Text
  import opened Queue
  import opened QueueRuns

  predicate RunningIn(t: Tables, id: Id) { id in t.states && t.states[id] == Actionable(Running) }

  /** A consumption that was begun and is not settled; quarantined rows do not count. */
  predicate Pressing(t: Tables, id: Id) {
    id in t.claims && !Settled(t.claims[id].outcome) && t.claims[id].operation != Other
  }

  /** What waits has its item, and what presses has it in its thread. */
  ghost predicate Linked(t: Tables) {
    && t.states.Keys <= t.items.Keys
    && (forall id :: id in t.states ==> t.states[id].Actionable?)
    && (forall id :: Pressing(t, id) ==> id in t.items && t.claims[id].thread == t.items[id].thread)
  }

  /** What runs comes before everything that waits in its thread, and nothing presses there. */
  ghost predicate RunsFirst(t: Tables)
    requires t.states.Keys <= t.items.Keys
  {
    forall x :: RunningIn(t, x) ==>
      && (forall y :: y in t.states && y != x && t.items[y].thread == t.items[x].thread ==> Before(t.items, x, y))
      && (forall y :: Pressing(t, y) ==> t.claims[y].thread != t.items[x].thread)
  }

  ghost predicate PressAlone(t: Tables) {
    forall x, y :: Pressing(t, x) && Pressing(t, y) && x != y ==> t.claims[x].thread != t.claims[y].thread
  }

  ghost predicate OneAtATime(t: Tables) { Linked(t) && RunsFirst(t) && PressAlone(t) }

  /** Every running item of the row's thread comes before it. */
  ghost predicate BehindRunning(t: Tables, id: Id, row: Row) {
    forall x :: RunningIn(t, x) && x in t.items && t.items[x].thread == row.thread ==>
      Sooner(t.items[x].createdAt, x, row.createdAt, id)
  }

  /** An old Agent takes no notice of rows that are done: it may reopen one, but neither
      deletes nor rewrites it. */
  ghost predicate LeavesRows(t: Tables, items: map<Id, Row>) {
    forall id :: id in t.items ==> id in items && items[id].(done := true) == t.items[id]
  }

  /** No item is added in front of a running one, only begun items get a tombstone, and old
      Agents leave rows in place. */
  ghost predicate InOrder(s: State, e: Event) {
    match e
    case OldAgent(items) => LeavesRows(s.tables, items)
    case Transact(OpAdd(id, row), _) => BehindRunning(s.tables, id, row)
    case Transact(OpEnsure(i), _) => i.id in s.begun
    case _ => true
  }

  ghost predicate AllInOrder(s: State, es: seq<Event>)
    decreases |es|
  {
    es == [] || (InOrder(s, es[0]) && AllInOrder(Step(s, es[0]), es[1..]))
  }

  lemma AddInOrder(t: Tables, id: Id, row: Row)
    requires OneAtATime(t) && id !in t.claims && BehindRunning(t, id, row)
    ensures OneAtATime(After(t, Add(t, id, row)))
  {
    var e := Add(t, id, row);
    if e.Commit? {
      var u := e.tables;
      assert forall x :: RunningIn(u, x) ==> x != id && RunningIn(t, x) && u.items[x] == t.items[x];
      assert forall x :: Pressing(u, x) <==> Pressing(t, x);
    }
  }

  lemma RemoveInOrder(t: Tables, id: Id, acknowledge: bool)
    requires OneAtATime(t) && Tidy(t)
    ensures OneAtATime(After(t, Remove(t, id, acknowledge)))
  {
    var u := After(t, Remove(t, id, acknowledge));
    if u != t {
      assert forall x :: RunningIn(u, x) ==> RunningIn(t, x) && x != id;
      assert forall x :: Pressing(u, x) ==> Pressing(t, x) && u.claims[x] == t.claims[x] && x in u.items;
    }
  }

  lemma NothingElseRuns(t: Tables, id: Id, x: Id)
    requires OneAtATime(t) && RunningIn(t, id) && RunningIn(t, x) && x != id
    ensures t.items[x].thread != t.items[id].thread
  {
    BeforeIsOrder(t.items, x, id);
  }

  /** What runs becomes what presses. */
  lemma BeginInOrder(t: Tables, id: Id, seen: Row, operation: Operation)
    requires OneAtATime(t) && Tidy(t)
    ensures OneAtATime(After(t, Begin(t, id, seen, operation)))
  {
    var e := Begin(t, id, seen, operation);
    if e.Commit? { PressingInOrder(t, id, e.tables.claims[id]); }
  }

  function Press(t: Tables, id: Id, claim: Claim): Tables {
    t.(states := t.states - {id}, claims := t.claims[id := claim])
  }

  lemma PressingIsLinked(t: Tables, id: Id, claim: Claim)
    requires Linked(t) && id in t.items && claim.thread == t.items[id].thread
    ensures Linked(Press(t, id, claim))
  {
    var u := Press(t, id, claim);
    assert forall x :: Pressing(u, x) && x != id ==> Pressing(t, x);
  }

  lemma PressingRunsFirst(t: Tables, id: Id, claim: Claim)
    requires OneAtATime(t) && RunningIn(t, id) && claim.thread == t.items[id].thread
    ensures RunsFirst(Press(t, id, claim))
  {
    var u := Press(t, id, claim);
    forall x | RunningIn(u, x)
      ensures forall y :: y in u.states && y != x && u.items[y].thread == u.items[x].thread ==> Before(u.items, x, y)
      ensures forall y :: Pressing(u, y) ==> u.claims[y].thread != u.items[x].thread
    {
      assert RunningIn(t, x);
      NothingElseRuns(t, id, x);
      assert forall y :: Pressing(u, y) && y != id ==> Pressing(t, y) && u.claims[y] == t.claims[y];
    }
  }

  lemma PressingInOrder(t: Tables, id: Id, claim: Claim)
    requires OneAtATime(t) && RunningIn(t, id) && claim.thread == t.items[id].thread
    ensures OneAtATime(Press(t, id, claim))
  {
    PressingIsLinked(t, id, claim);
    PressingRunsFirst(t, id, claim);
    var u := Press(t, id, claim);
    assert PressAlone(u) by {
      forall x | Pressing(u, x) && x != id
        ensures Pressing(t, x) && u.claims[x] == t.claims[x] && u.claims[x].thread != claim.thread {}
    }
  }

  /** Outcomes move on, and nothing else changes. */
  lemma OutcomeInOrder(t: Tables, id: Id, o: Outcome)
    requires OneAtATime(t) && id in t.claims && (Settled(o) || !Settled(t.claims[id].outcome))
    ensures OneAtATime(SetOutcome(t, id, o))
  {
    var u := SetOutcome(t, id, o);
    assert u.claims.Keys == t.claims.Keys;
    assert forall x :: Pressing(u, x) ==> Pressing(t, x) && u.claims[x].thread == t.claims[x].thread;
  }

  lemma CompleteInOrder(t: Tables, i: Identity, turn: string)
    requires OneAtATime(t) && Tidy(t)
    ensures OneAtATime(After(t, Complete(t, i, turn)))
  {
    if Complete(t, i, turn).Commit? {
      OutcomeInOrder(t, i.id, Completed);
      AlreadyDone(SetOutcome(t, i.id, Completed), i.id);
    }
  }

  lemma RepairInOrder(t: Tables, id: Id)
    requires OneAtATime(t) && Tidy(t)
    ensures OneAtATime(After(t, Repair(t, id)))
  {
    if id in t.claims && !Settled(t.claims[id].outcome) {
      OutcomeInOrder(t, id, Uncertain);
      var u := SetOutcome(t, id, Uncertain);
      assert u.(states := t.states - {id}) == u by { assert t.states - {id} == t.states; }
      AlreadyDone(u, id);
    }
  }

  /** States and claims that are left do not get more urgent. */
  lemma CalmingInOrder(t: Tables, u: Tables)
    requires OneAtATime(t) && u.states.Keys <= t.states.Keys
    requires forall id :: id in t.items ==> id in u.items && u.items[id] == t.items[id]
    requires forall id :: id in u.states ==> u.states[id].Actionable? && (RunningIn(u, id) ==> RunningIn(t, id))
    requires forall id :: Pressing(u, id) ==> Pressing(t, id) && u.claims[id].thread == t.claims[id].thread
    ensures OneAtATime(u)
  {
  }

  lemma PauseInterruptedInOrder(t: Tables)
    requires OneAtATime(t) && Tidy(t)
    ensures OneAtATime(After(t, PauseInterrupted(t)))
  {
    CalmingInOrder(t, PauseInterrupted(t).tables);
  }

  /** Whatever rows an old Agent has added or reopened, they end up waiting for nobody. */
  lemma MigrationInOrder(t: Tables, items: map<Id, Row>)
    requires OneAtATime(t) && LeavesRows(t, items)
    ensures OneAtATime(Migrate(t.(items := items)))
  {
    CalmingInOrder(t, Migrate(t.(items := items)));
  }

  lemma ReserveInOrder(t: Tables, id: Id)
    requires OneAtATime(t) && Tidy(t) && id in t.items
    requires IsEarliest(t, t.items[id].thread, id) && !Unresolved(t, t.items[id].thread)
    ensures OneAtATime(SetMode(t, id, Running))
  {
    var thread := t.items[id].thread;
    forall y | y in t.states && y != id && t.items[y].thread == thread
      ensures Unconsumed(t, thread, y) && Before(t.items, id, y) && !RunningIn(t, y)
    {
      assert Unconsumed(t, thread, y);
      BeforeIsOrder(t.items, id, y);
    }
  }

  lemma OnlyModesInOrder(t: Tables, op: Op)
    requires OneAtATime(t) && Tidy(t) && OnlyModes(op) && Allowed(t, op)
    ensures OneAtATime(Perform(t, op))
  {
    match op
    case OpClaimNext(thread) =>
      EarliestIsUnconsumed(t, thread);
      if Perform(t, op) != t { ReserveInOrder(t, Earliest(t, thread).value); }
    case OpClaimForSteer(id) =>
      if id in t.items { EarliestIsUnconsumed(t, t.items[id].thread); }
      if Perform(t, op) != t { ReserveInOrder(t, id); }
    case _ =>
      OnlyModesRemode(t, op);
      CalmingInOrder(t, Perform(t, op));
  }

  lemma StepInOrder(s: State, e: Event)
    requires Inv(s) && OneAtATime(s.tables) && InOrder(s, e)
    ensures OneAtATime(Step(s, e).tables)
  {
    var t := s.tables;
    match e
    case OldAgent(items) => MigrationInOrder(t, items);
    case Transact(op, fate) =>
      if fate != Unpublished && Allowed(t, op) {
        if OnlyModes(op) {
          OnlyModesInOrder(t, op);
        } else {
          match op
          case OpAdd(id, row) => AddInOrder(t, id, row);
          case OpRemove(id, acknowledge) => RemoveInOrder(t, id, acknowledge);
          case OpBegin(id, seen, operation) => BeginInOrder(t, id, seen, operation);
          case OpComplete(i, turn) => CompleteInOrder(t, i, turn);
          case OpRepair(id) => RepairInOrder(t, id);
          case OpEnsure(i) => RepairInOrder(t, i.id);
          case OpPauseInterrupted => PauseInterruptedInOrder(t);
        }
      }
  }

  lemma {:induction false} RunInOrder(s: State, es: seq<Event>)
    requires Inv(s) && OneAtATime(s.tables) && AllInOrder(s, es)
    ensures Inv(Run(s, es)) && OneAtATime(Run(s, es).tables)
    decreases |es|
  {
    if es != [] {
      StepKeeps(s, es[0]);
      StepInOrder(s, es[0]);
      RunInOrder(Step(s, es[0]), es[1..]);
    }
  }

  predicate Busy(t: Tables, id: Id) {
    id in t.items && (StatusOf(t, id) == Active(Running) || StatusOf(t, id) == Delivering)
  }

  /** Each thread has at most one item running or delivering. */
  ghost predicate OneBusy(t: Tables) {
    forall x, y :: Busy(t, x) && Busy(t, y) && t.items[x].thread == t.items[y].thread ==> x == y
  }

  lemma OneAtATimeIsOneBusy(t: Tables)
    requires OneAtATime(t)
    ensures OneBusy(t)
  {
    forall x, y | Busy(t, x) && Busy(t, y) && t.items[x].thread == t.items[y].thread ensures x == y {
      if x != y && RunningIn(t, x) && RunningIn(t, y) { NothingElseRuns(t, x, y); }
    }
  }

  /** In every reachable state each thread has at most one item running or delivering. */
  lemma OneBusyItemPerThread(es: seq<Event>)
    requires AllInOrder(Init(), es)
    ensures OneBusy(Run(Init(), es).tables)
  {
    RunInOrder(Init(), es);
    OneAtATimeIsOneBusy(Run(Init(), es).tables);
  }

  // ----- earlier items

  /** The claim that migration makes up for a row an old Agent may have acted on. */
  predicate InQuarantine(t: Tables, id: Id) {
    id in t.claims && t.claims[id].operation == Other && !Settled(t.claims[id].outcome)
  }

  /** When an item's consumption begins, an earlier item of its thread is done exactly when it
      was not left by an old Agent and is in quarantine. */
  lemma EarlierItemsAreDone(es: seq<Event>, id: Id, seen: Row, operation: Operation, j: Id)
    requires AllInOrder(Init(), es)
    requires var t := Run(Init(), es).tables;
             && Begin(t, id, seen, operation).Commit?
             && j in t.items && t.items[j].thread == t.items[id].thread && Before(t.items, j, id)
    ensures var t := Run(Init(), es).tables; StatusOf(t, j) == Done <==> !InQuarantine(t, j)
  {
    RunInOrder(Init(), es);
    var t := Run(Init(), es).tables;
    assert RunningIn(t, id);
    BeforeIsOrder(t.items, j, id);
    assert j in t.claims && !InQuarantine(t, j) ==> !Pressing(t, j);
  }

  /** Without old Agents every item waits or has a claim of this program's. */
  ghost predicate Native(t: Tables) {
    t.items.Keys <= t.states.Keys + t.claims.Keys && forall id :: id in t.claims ==> t.claims[id].operation != Other
  }

  lemma RepairStaysNative(t: Tables, id: Id)
    requires Native(t)
    ensures Native(After(t, Repair(t, id)))
  {
    var u := After(t, Repair(t, id));
    assert u.items.Keys == t.items.Keys && u.claims.Keys == t.claims.Keys;
  }

  lemma EnsureStaysNative(t: Tables, i: Identity)
    requires Native(t) && i.operation != Other
    ensures Native(After(t, Ensure(t, i)))
  {
    RepairStaysNative(Tombstone(t, i), i.id);
  }

  lemma RemoveStaysNative(t: Tables, id: Id, acknowledge: bool)
    requires Native(t)
    ensures Native(After(t, Remove(t, id, acknowledge)))
  {
  }

  lemma BeginStaysNative(t: Tables, id: Id, seen: Row, operation: Operation)
    requires Native(t) && operation != Other
    ensures Native(After(t, Begin(t, id, seen, operation)))
  {
  }

  lemma PerformStaysNative(t: Tables, op: Op)
    requires Native(t) && Allowed(t, op)
    ensures Native(Perform(t, op))
  {
    if OnlyModes(op) {
      OnlyModesRemode(t, op);
    } else {
      match op
      case OpRemove(id, acknowledge) => RemoveStaysNative(t, id, acknowledge);
      case OpBegin(id, seen, operation) => BeginStaysNative(t, id, seen, operation);
      case OpRepair(id) => RepairStaysNative(t, id);
      case OpEnsure(i) => EnsureStaysNative(t, i);
      case OpAdd(id, row) =>
      case OpComplete(i, turn) =>
      case OpPauseInterrupted =>
    }
  }

  lemma {:induction false} RunStaysNative(s: State, es: seq<Event>)
    requires Native(s.tables) && forall e :: e in es ==> e.Transact?
    ensures Native(Run(s, es).tables)
    decreases |es|
  {
    if es != [] {
      var e := es[0];
      assert e in es;
      if e.fate != Unpublished && Allowed(s.tables, e.op) { PerformStaysNative(s.tables, e.op); }
      RunStaysNative(Step(s, e), es[1..]);
    }
  }

  /** And if no old Agent ran, every earlier item that has not been removed is completed or
      abandoned. */
  lemma EarlierItemsAreSettled(es: seq<Event>, id: Id, seen: Row, operation: Operation, j: Id)
    requires AllInOrder(Init(), es) && forall e :: e in es ==> e.Transact?
    requires var t := Run(Init(), es).tables;
             && Begin(t, id, seen, operation).Commit?
             && j in t.items && t.items[j].thread == t.items[id].thread && Before(t.items, j, id)
    ensures var t := Run(Init(), es).tables; j in t.claims && Settled(t.claims[j].outcome)
  {
    RunStaysNative(Init(), es);
    RunInOrder(Init(), es);
    EarlierItemsAreDone(es, id, seen, operation, j);
  }

  // ----- why additions matter

  /** `y` waits in front of `x`, which runs, and nothing that was begun is in the way. */
  ghost predicate Overtaken(t: Tables, thread: string, x: Id, y: Id) {
    && x != y && RunningIn(t, x) && Unconsumed(t, thread, x)
    && IsEarliest(t, thread, y) && t.states[y] == Actionable(Pending)
    && forall k :: Pressing(t, k) ==> t.claims[k].thread != thread
  }

  ghost function Obstacles(t: Tables, thread: string): set<Id> {
    set k | k in t.claims && k in t.items && t.claims[k].thread == thread && !Settled(t.claims[k].outcome)
  }

  lemma ClaimedNext(t: Tables, thread: string, id: Id)
    requires IsEarliest(t, thread, id) && !Unresolved(t, thread) && t.states[id] == Actionable(Pending)
    ensures Perform(t, OpClaimNext(thread)) == SetMode(t, id, Running)
  {
    EarliestIsFirst(t, thread, id);
  }

  /** An obstacle is in quarantine and can be acknowledged away. */
  lemma ObstacleGoes(t: Tables, thread: string, x: Id, y: Id, k: Id)
    requires Overtaken(t, thread, x, y) && Tidy(t) && Sane(t) && k in Obstacles(t, thread)
    ensures var u := Perform(t, OpRemove(k, true));
            Overtaken(u, thread, x, y) && Obstacles(u, thread) == Obstacles(t, thread) - {k}
  {
    var u := Perform(t, OpRemove(k, true));
    assert !Pressing(t, k);
    assert u == SetOutcome(t, k, Abandoned).(states := t.states - {k}, items := t.items - {k});
    forall j | Unconsumed(u, thread, j) ensures Unconsumed(t, thread, j) {}
    assert Unconsumed(u, thread, y);
  }

  lemma ObstaclesAreUnresolved(t: Tables, thread: string)
    ensures Unresolved(t, thread) <==> Obstacles(t, thread) != {}
  {
    if k :| k in t.claims && k in t.items && t.claims[k].thread == thread && !Settled(t.claims[k].outcome) {
      assert k in Obstacles(t, thread);
    }
  }

  lemma BothClaimed(t: Tables, thread: string, x: Id, y: Id)
    requires Overtaken(t, thread, x, y) && Tidy(t) && Obstacles(t, thread) == {}
    ensures !OneBusy(Perform(t, OpClaimNext(thread)))
  {
    ObstaclesAreUnresolved(t, thread);
    ClaimedNext(t, thread, y);
    var u := SetMode(t, y, Running);
    assert Busy(u, x) && Busy(u, y) && u.items[x].thread == u.items[y].thread;
  }

  lemma {:induction false} BothRun(s: State, thread: string, x: Id, y: Id) returns (es: seq<Event>)
    requires Inv(s) && Overtaken(s.tables, thread, x, y)
    ensures AllInOrder(s, es) && !OneBusy(Run(s, es).tables)
    decreases |Obstacles(s.tables, thread)|
  {
    var t := s.tables;
    if k :| k in Obstacles(t, thread) {
      var e := Transact(OpRemove(k, true), Acknowledged);
      ObstacleGoes(t, thread, x, y, k);
      StepKeeps(s, e);
      var rest := BothRun(Step(s, e), thread, x, y);
      es := [e] + rest;
      assert es[1..] == rest;
    } else {
      var e := Transact(OpClaimNext(thread), Acknowledged);
      BothClaimed(t, thread, x, y);
      es := [e];
      assert es[1..] == [] && Run(s, es) == Run(Step(s, e), []);
    }
  }

  lemma OvertakenWhenAdded(t: Tables, id: Id, row: Row, x: Id)
    requires OneAtATime(t) && Tidy(t) && id !in t.claims && Add(t, id, row).Commit?
    requires RunningIn(t, x) && t.items[x].thread == row.thread && !Sooner(t.items[x].createdAt, x, row.createdAt, id)
    ensures Overtaken(Add(t, id, row).tables, row.thread, x, id)
  {
    var u := Add(t, id, row).tables;
    BeforeIsOrder(u.items, x, id);
    forall j | Unconsumed(u, row.thread, j) && j != id ensures Before(u.items, id, j) {
      if j != x { BeforeIsTransitive(u.items, id, x, j); }
    }
  }

  /** An addition is harmless exactly when it does not come in front of a running item of its
      thread: otherwise some continuation, in order from there on, has both running. */
  lemma HarmlessExactlyWhen(s: State, id: Id, row: Row)
    requires Inv(s) && OneAtATime(s.tables) && Allowed(s.tables, OpAdd(id, row)) && Add(s.tables, id, row).Commit?
    ensures var u := Step(s, Transact(OpAdd(id, row), Acknowledged));
            BehindRunning(s.tables, id, row) <==> forall es :: AllInOrder(u, es) ==> OneBusy(Run(u, es).tables)
  {
    var t := s.tables;
    var u := Step(s, Transact(OpAdd(id, row), Acknowledged));
    StepKeeps(s, Transact(OpAdd(id, row), Acknowledged));
    if BehindRunning(t, id, row) {
      AddInOrder(t, id, row);
      forall es | AllInOrder(u, es) ensures OneBusy(Run(u, es).tables) {
        RunInOrder(u, es);
        OneAtATimeIsOneBusy(Run(u, es).tables);
      }
    } else {
      var x :| RunningIn(t, x) && x in t.items && t.items[x].thread == row.thread &&
               !Sooner(t.items[x].createdAt, x, row.createdAt, id);
      OvertakenWhenAdded(t, id, row, x);
      var es := BothRun(u, row.thread, x, id);
    }
  }

  /** It does happen: an item stamped before a running one and committed after it, or in the
      same millisecond with a smaller id. */
  lemma LateAdditionOverlaps(x: Id, late: int, y: Id, early: int)
    requires x != "" && y != "" && x != y && Sooner(early, y, late, x)
    ensures exists es: seq<Event> :: !OneBusy(Run(Init(), es).tables)
  {
    var row, first := Row("t", late, "", true), Row("t", early, "", true);
    var add, next := Transact(OpAdd(x, row), Acknowledged), Transact(OpClaimNext("t"), Acknowledged);
    var overtake := Transact(OpAdd(y, first), Acknowledged);
    OneRuns(x, row);
    var s2 := State(OnlyRunning(x, row), []);
    OvertakenAlone(x, row, y, first);
    StepKeeps(s2, overtake);
    var es := BothRun(Step(s2, overtake), "t", x, y);
    RunPrefix(Init(), [add, next, overtake], es);
    RunOfThree(Init(), add, next, overtake);
  }

  function OnlyRunning(x: Id, row: Row): Tables {
    Tables(map[x := row], map[x := Actionable(Running)], map[])
  }

  lemma OneRuns(x: Id, row: Row)
    requires x != "" && row.done
    ensures Step(Step(Init(), Transact(OpAdd(x, row), Acknowledged)), Transact(OpClaimNext(row.thread), Acknowledged))
         == State(OnlyRunning(x, row), [])
  {
    var t1 := Tables(map[x := row], map[x := Actionable(Pending)], map[]);
    ClaimedNext(t1, row.thread, x);
  }

  lemma OvertakenAlone(x: Id, row: Row, y: Id, first: Row)
    requires x != y && row.thread == first.thread && row.done && Sooner(first.createdAt, y, row.createdAt, x)
    ensures Overtaken(After(OnlyRunning(x, row), Add(OnlyRunning(x, row), y, first)), row.thread, x, y)
  {
    LessIsTotal(x, y);
    OvertakenWhenAdded(OnlyRunning(x, row), y, first, x);
  }

  lemma {:induction false} RunPrefix(s: State, a: seq<Event>, b: seq<Event>)
    ensures Run(s, a + b) == Run(Run(s, a), b)
    decreases |a|
  {
    if a == [] {
      assert a + b == b;
    } else {
      assert (a + b)[1..] == a[1..] + b;
      RunPrefix(Step(s, a[0]), a[1..], b);
    }
  }

  lemma RunOfThree(s: State, a: Event, b: Event, c: Event)
    ensures Run(s, [a, b, c]) == Step(Step(Step(s, a), b), c)
  {
    var s1, s2 := Step(s, a), Step(Step(s, a), b);
    assert [a, b, c][1..] == [b, c] && [b, c][1..] == [c] && [c][1..] == [];
    assert Run(s, [a, b, c]) == Run(s1, [b, c]);
    assert Run(s1, [b, c]) == Run(s2, [c]);
    assert Run(s2, [c]) == Run(Step(s2, c), []);
  }

  lemma OldRowIsQuarantined(x: Id, row: Row, j: Id, old_row: Row)
    requires x != j && row.done && !old_row.done && old_row.thread == row.thread != ""
    ensures var t := Migrate(OnlyRunning(x, row).(items := map[x := row, j := old_row]));
            && t.items == map[x := row, j := old_row.(done := true)] && t.states == map[x := Actionable(Running)]
            && t.claims == map[j := LegacyClaim(j, old_row)]
  {
    var t0 := OnlyRunning(x, row).(items := map[x := row, j := old_row]);
    assert Touched(t0) == {j};
  }

  /** The exception occurs: an old Agent's row in front of an item that was running. */
  lemma QuarantineCanComeFirst(x: Id, late: int, j: Id, early: int)
    requires x != "" && j != "" && x != j && Sooner(early, j, late, x)
    ensures exists es: seq<Event> ::
              && AllInOrder(Init(), es)
              && var t := Run(Init(), es).tables;
                 && x in t.items && j in t.items && t.items[j].thread == t.items[x].thread && Before(t.items, j, x)
                 && Begin(t, x, t.items[x], Start).Commit? && InQuarantine(t, j)
  {
    var row, old_row := Row("t", late, "", true), Row("t", early, "", false);
    var add, next := Transact(OpAdd(x, row), Acknowledged), Transact(OpClaimNext("t"), Acknowledged);
    var old_run := OldAgent(map[x := row, j := old_row]);
    OneRuns(x, row);
    OldRowIsQuarantined(x, row, j, old_row);
    RunOfThree(Init(), add, next, old_run);
    var s1 := Step(Init(), add);
    var s2 := State(OnlyRunning(x, row), []);
    assert [add, next, old_run][1..] == [next, old_run] && [next, old_run][1..] == [old_run] && [old_run][1..] == [];
    assert AllInOrder(s2, [old_run]);
    assert AllInOrder(s1, [next, old_run]);
    assert AllInOrder(Init(), [add, next, old_run]);
    var t := Step(s2, old_run).tables;
    assert Begin(t, x, t.items[x], Start).Commit?;
  }
}
