/**
 The lock protocol, the commit fence and the state store together: every transaction is an
 acquisition of the lock, and publishes only behind the fence and after asserting that the
 public name still carries its own record.
 */
module LockedStore {
  import opened Options
  import opened StateStore
  import L = LockProtocol

  /** A transaction's id is the acquisition that guards it. */
  datatype Joint<!Db> = Joint(lock: L.State, world: World<Db>, fence: Option<nat>)

  datatype JointEvent<!Db> =
    | Protocol(move: L.Event)               // any acquisition that is not in a transaction
    | Start(store: nat, tx: Tx<Db>)         // the acquired lock is returned
    | Work(step: Event<Db>)
    | BeginCommit(store: nat)
    | Publish(store: nat)
    | Finish(step: Event<Db>)               // the sync, or a failure: the fence goes
    | Answer(store: nat, throws: bool)
    | Die(store: nat)

  predicate InTransaction<Db>(w: World<Db>, a: L.Actor) {
    exists p :: p in w.stores && Active(w.stores[p]) && w.stores[p].phase.tx.id == a
  }

  /** A holder in a transaction neither releases nor dies apart from its store. */
  predicate Free<Db>(w: World<Db>, e: L.Event) {
    match e
    case Spawn(_) => true
    case Do(a, _) => !InTransaction(w, a)
    case Crash(victims) => forall a :: a in victims ==> !InTransaction(w, a)
  }

  /** The store is committed in memory, and the public name carries its acquisition. */
  predicate Owns<Db>(j: Joint<Db>, p: nat) {
    p in j.world.stores && j.world.stores[p].phase.Committed? && j.lock.lock == Some(j.world.stores[p].phase.tx.id)
  }

  predicate HasFence<Db>(j: Joint<Db>, p: nat) {
    p in j.world.stores && Active(j.world.stores[p]) && j.fence == Some(j.world.stores[p].phase.tx.id)
  }

  function Unfence<Db>(j: Joint<Db>, p: nat): Joint<Db> {
    if HasFence(j, p) then j.(fence := None) else j
  }

  predicate IsWork<Db>(e: Event<Db>) { e.Open? || e.Reload? || e.Apply? || e.ReloadToRead? || e.Read? }

  ghost function Move<Db>(j: Joint<Db>, e: JointEvent<Db>): Joint<Db> {
    match e
    case Protocol(move) => if Free(j.world, move) then j.(lock := L.Apply(j.lock, move)) else j
    case Start(p, tx) => if L.Holds(j.lock, tx.id) then j.(world := Step(j.world, Intrude(p, tx))) else j
    case Work(step) => if IsWork(step) then j.(world := Step(j.world, step)) else j
    case BeginCommit(p) =>
      if Owns(j, p) && j.fence == None then j.(fence := Some(j.world.stores[p].phase.tx.id)) else j
    case Publish(p) =>
      if Owns(j, p) && j.fence == Some(j.world.stores[p].phase.tx.id) then j.(world := Step(j.world, Rename(p))) else j
    case Finish(step) =>
      if step.Sync? || step.FailHere? then Unfence(j, step.store).(world := Step(j.world, step)) else j
    case Answer(p, throws) => j.(world := Step(j.world, Release(p, true, throws)))
    case Die(p) =>
      if p in j.world.stores && Active(j.world.stores[p])
      then Unfence(j, p).(lock := L.Apply(j.lock, L.Crash({j.world.stores[p].phase.tx.id})), world := Step(j.world, Crash(p)))
      else j.(world := Step(j.world, Crash(p)))
  }

  ghost function MoveAll<Db>(j: Joint<Db>, es: seq<JointEvent<Db>>): Joint<Db>
    decreases |es|
  {
    if es == [] then j else MoveAll(Move(j, es[0]), es[1..])
  }

  function Initial<Db>(kind: L.Kind, db: Db): Joint<Db> { Joint(L.Init(kind), Fresh(db), None) }

  /** Every restoration in the run leaves the lock's contenders covered. */
  ghost predicate CarefulRun<Db>(j: Joint<Db>, es: seq<JointEvent<Db>>)
    decreases |es|
  {
    es != [] ==>
      && (es[0].Protocol? && L.Restores(j.lock, es[0].move) ==> L.Covered(L.Apply(j.lock, es[0].move)))
      && CarefulRun(Move(j, es[0]), es[1..])
  }

  // ----- careful runs publish serially

  /** Who is in a transaction holds the lock, and what it loaded is current. */
  ghost predicate Guarded<Db>(j: Joint<Db>) {
    && (forall p :: p in j.world.stores && Active(j.world.stores[p]) ==> L.Holds(j.lock, j.world.stores[p].phase.tx.id))
    && (forall p :: p in j.world.stores && (j.world.stores[p].phase.Loaded? || j.world.stores[p].phase.Committed?) ==>
          j.world.stores[p].phase.since == |j.world.log|)
  }

  ghost predicate Inv<Db>(db: Db, j: Joint<Db>) {
    L.Inv(j.lock) && L.Covered(j.lock) && Accounts(j.world) && Serial(db, j.world) && Guarded(j)
  }

  /** Exclusion, in the store's terms. */
  lemma OneInTransaction<Db>(j: Joint<Db>, p: nat, q: nat)
    requires L.Covered(j.lock) && Distinct(j.world) && Guarded(j)
    requires p in j.world.stores && q in j.world.stores && Active(j.world.stores[p]) && Active(j.world.stores[q])
    ensures p == q
  {
    L.CoveredIsExclusive(j.lock);
  }

  lemma HolderStays(s: L.State, e: L.Event, a: L.Actor)
    requires L.Holds(s, a) && !(e.Do? && e.actor == a) && !(e.Crash? && a in e.victims)
    ensures L.Holds(L.Apply(s, e), a)
  {
    if e.Do? && L.Live(s, e.actor) { L.StepIsLocal(s, e.actor, e.choice); }
  }

  lemma ProtocolKeepsInv<Db>(db: Db, j: Joint<Db>, e: L.Event)
    requires Inv(db, j) && Free(j.world, e) && (L.Restores(j.lock, e) ==> L.Covered(L.Apply(j.lock, e)))
    ensures Inv(db, j.(lock := L.Apply(j.lock, e)))
  {
    L.ApplyKeepsInv(j.lock, e);
    L.StepKeepsCovered(j.lock, e);
    forall p | p in j.world.stores && Active(j.world.stores[p])
      ensures L.Holds(L.Apply(j.lock, e), j.world.stores[p].phase.tx.id)
    {
      assert InTransaction(j.world, j.world.stores[p].phase.tx.id);
      HolderStays(j.lock, e, j.world.stores[p].phase.tx.id);
    }
  }

  /** A store moves on within its transaction, or out of it. */
  lemma LocalKeepsGuarded<Db>(j: Joint<Db>, v: World<Db>, p: nat)
    requires Guarded(j) && v.log == j.world.log
    requires forall q :: q in v.stores && q != p ==> q in j.world.stores && v.stores[q] == j.world.stores[q]
    requires p in v.stores && Active(v.stores[p]) ==>
               p in j.world.stores && Active(j.world.stores[p]) && v.stores[p].phase.tx == j.world.stores[p].phase.tx
    requires p in v.stores && (v.stores[p].phase.Loaded? || v.stores[p].phase.Committed?) ==>
               v.stores[p].phase.since == |v.log|
    ensures Guarded(j.(world := v))
  {
  }

  /** So do the store's steps that neither begin nor publish. */
  lemma StoreKeepsGuarded<Db>(j: Joint<Db>, e: Event<Db>)
    requires Guarded(j) && !e.Begin? && !e.Intrude? && !e.Rename?
    ensures Guarded(j.(world := Step(j.world, e)))
  {
    LocalKeepsGuarded(j, Step(j.world, e), e.store);
  }

  lemma StoreKeepsInv<Db>(db: Db, j: Joint<Db>, e: Event<Db>)
    requires Inv(db, j) && !e.Begin? && !e.Intrude? && !e.Rename?
    ensures Inv(db, j.(world := Step(j.world, e)))
  {
    StepIsSerial(db, j.world, e);
    StepAccounts(j.world, e);
    StoreKeepsGuarded(j, e);
  }

  lemma StartKeepsInv<Db>(db: Db, j: Joint<Db>, p: nat, tx: Tx<Db>)
    requires Inv(db, j) && L.Holds(j.lock, tx.id)
    ensures Inv(db, j.(world := Step(j.world, Intrude(p, tx))))
  {
    StepIsSerial(db, j.world, Intrude(p, tx));
    StepAccounts(j.world, Intrude(p, tx));
  }

  lemma PublishKeepsInv<Db>(db: Db, j: Joint<Db>, p: nat)
    requires Inv(db, j) && p in j.world.stores && j.world.stores[p].phase.Committed?
    ensures Inv(db, j.(world := Step(j.world, Rename(p))))
  {
    StepIsSerial(db, j.world, Rename(p));
    StepAccounts(j.world, Rename(p));
    RenameKeepsGuarded(j, p);
  }

  lemma RenameKeepsGuarded<Db>(j: Joint<Db>, p: nat)
    requires L.Covered(j.lock) && Distinct(j.world) && Guarded(j)
    requires p in j.world.stores && j.world.stores[p].phase.Committed?
    ensures Guarded(j.(world := StepRename(j.world, p)))
  {
    forall q | q in j.world.stores && Active(j.world.stores[q]) ensures q == p { OneInTransaction(j, p, q); }
  }

  lemma DieKeepsInv<Db>(db: Db, j: Joint<Db>, p: nat)
    requires Inv(db, j) && p in j.world.stores && Active(j.world.stores[p])
    ensures Inv(db, j.(lock := L.Apply(j.lock, L.Crash({j.world.stores[p].phase.tx.id})), world := Step(j.world, Crash(p))))
  {
    var crash, i := L.Crash({j.world.stores[p].phase.tx.id}), j.(world := Step(j.world, Crash(p)));
    StoreKeepsInv(db, j, Crash(p));
    assert Free(i.world, crash);
    ProtocolKeepsInv(db, i, crash);
  }

  lemma FenceIsFree<Db>(db: Db, j: Joint<Db>, fence: Option<nat>)
    requires Inv(db, j)
    ensures Inv(db, j.(fence := fence))
  {
  }

  lemma MoveKeepsInv<Db>(db: Db, j: Joint<Db>, e: JointEvent<Db>)
    requires Inv(db, j)
    requires e.Protocol? && L.Restores(j.lock, e.move) ==> L.Covered(L.Apply(j.lock, e.move))
    ensures Inv(db, Move(j, e))
  {
    match e
    case Protocol(move) => if Free(j.world, move) { ProtocolKeepsInv(db, j, move); }
    case Start(p, tx) => if L.Holds(j.lock, tx.id) { StartKeepsInv(db, j, p, tx); }
    case Work(step) => if IsWork(step) { StoreKeepsInv(db, j, step); }
    case BeginCommit(p) => FenceIsFree(db, j, Move(j, e).fence);
    case Publish(p) => if Owns(j, p) { PublishKeepsInv(db, j, p); }
    case Finish(step) =>
      if step.Sync? || step.FailHere? {
        FenceIsFree(db, j, Unfence(j, step.store).fence);
        StoreKeepsInv(db, Unfence(j, step.store), step);
      }
    case Answer(p, throws) => StoreKeepsInv(db, j, Release(p, true, throws));
    case Die(p) =>
      if p in j.world.stores && Active(j.world.stores[p]) {
        FenceIsFree(db, j, Unfence(j, p).fence);
        DieKeepsInv(db, Unfence(j, p), p);
      } else {
        StoreKeepsInv(db, j, Crash(p));
      }
  }

  lemma {:induction false} MoveAllKeepsInv<Db>(db: Db, j: Joint<Db>, es: seq<JointEvent<Db>>)
    requires Inv(db, j) && CarefulRun(j, es)
    ensures Inv(db, MoveAll(j, es))
    decreases |es|
  {
    if es != [] {
      MoveKeepsInv(db, j, es[0]);
      MoveAllKeepsInv(db, Move(j, es[0]), es[1..]);
    }
  }

  /** Over every run of any number of acquisitions and stores whose restorations are careful:
      the published database is the serial fold of the published callbacks, none twice, every
      acknowledged one among them, and reads and callbacks saw what had been published. */
  lemma CarefulRunsPublishSerially<Db>(kind: L.Kind, db: Db, es: seq<JointEvent<Db>>)
    requires CarefulRun(Initial(kind, db), es)
    ensures var w := MoveAll(Initial(kind, db), es).world;
            && Fold(db, w.log) == Some(w.published) && Once(w.log) && w.acknowledged !! w.failed
            && (forall id :: id in w.acknowledged ==> Logged(w.log, id))
            && (forall i :: 0 <= i < |w.seen| ==> WasPublished(db, w.log, w.seen[i].1, w.seen[i].0))
  {
    assert Inv(db, Initial(kind, db));
    MoveAllKeepsInv(db, Initial(kind, db), es);
  }

  // ----- what the fence gives by itself

  /** Whoever has published and not finished holds the fence. */
  ghost predicate Fenced<Db>(j: Joint<Db>) {
    Accounts(j.world) &&
    forall p :: p in j.world.stores && j.world.stores[p].phase.Renamed? ==> j.fence == Some(j.world.stores[p].phase.tx.id)
  }

  lemma StepKeepsRenamed<Db>(w: World<Db>, e: Event<Db>, p: nat)
    requires !e.Rename? && p in Step(w, e).stores && Step(w, e).stores[p].phase.Renamed?
    ensures p in w.stores && Step(w, e).stores[p] == w.stores[p]
  {
  }

  /** A store's step other than the rename, with the fence kept or given up by its own holder. */
  lemma StoreStaysFenced<Db>(j: Joint<Db>, e: Event<Db>, fence: Option<nat>)
    requires Fenced(j) && !e.Rename?
    requires fence == j.fence || (HasFence(j, e.store) && !(e.store in Step(j.world, e).stores && Step(j.world, e).stores[e.store].phase.Renamed?))
    ensures forall s :: Fenced(Joint(s, Step(j.world, e), fence))
  {
    StepAccounts(j.world, e);
    forall p | p in Step(j.world, e).stores && Step(j.world, e).stores[p].phase.Renamed?
      ensures fence == Some(Step(j.world, e).stores[p].phase.tx.id)
    {
      StepKeepsRenamed(j.world, e, p);
    }
  }

  lemma PublishStaysFenced<Db>(j: Joint<Db>, p: nat)
    requires Fenced(j) && Owns(j, p) && j.fence == Some(j.world.stores[p].phase.tx.id)
    ensures Fenced(j.(world := Step(j.world, Rename(p))))
  {
    StepAccounts(j.world, Rename(p));
  }

  lemma FinishStaysFenced<Db>(j: Joint<Db>, e: Event<Db>, s: L.State)
    requires Fenced(j) && (e.Sync? || e.FailHere? || e.Crash?)
    ensures Fenced(Unfence(j, e.store).(lock := s, world := Step(j.world, e)))
  {
    StoreStaysFenced(j, e, Unfence(j, e.store).fence);
  }

  lemma MoveStaysFenced<Db>(j: Joint<Db>, e: JointEvent<Db>)
    requires Fenced(j)
    ensures Fenced(Move(j, e))
  {
    match e
    case Protocol(move) =>
    case Start(p, tx) => StoreStaysFenced(j, Intrude(p, tx), j.fence);
    case Work(step) => if IsWork(step) { StoreStaysFenced(j, step, j.fence); }
    case BeginCommit(p) =>
    case Publish(p) => if Move(j, e) != j { PublishStaysFenced(j, p); }
    case Finish(step) => if step.Sync? || step.FailHere? { FinishStaysFenced(j, step, j.lock); }
    case Answer(p, throws) => StoreStaysFenced(j, Release(p, true, throws), j.fence);
    case Die(p) => FinishStaysFenced(j, Crash(p), Move(j, e).lock);
  }

  lemma {:induction false} MoveAllStaysFenced<Db>(j: Joint<Db>, es: seq<JointEvent<Db>>)
    requires Fenced(j)
    ensures Fenced(MoveAll(j, es))
    decreases |es|
  {
    if es != [] {
      MoveStaysFenced(j, es[0]);
      MoveAllStaysFenced(Move(j, es[0]), es[1..]);
    }
  }

  /** Over every run, careful or not, at most one store is between its rename and the end of its
      commit: the fence keeps even two holders of the lock from publishing into each other. */
  lemma OneCommitAtATime<Db>(kind: L.Kind, db: Db, es: seq<JointEvent<Db>>, p: nat, q: nat)
    requires var w := MoveAll(Initial(kind, db), es).world;
             p in w.stores && q in w.stores && w.stores[p].phase.Renamed? && w.stores[q].phase.Renamed?
    ensures p == q
  {
    MoveAllStaysFenced(Initial(kind, db), es);
  }

  /** A holder whose record is no longer at the public name neither gets the fence nor publishes,
      and neither does one that finds the fence taken. */
  lemma DisplacedHolderPublishesNothing<Db>(j: Joint<Db>, p: nat)
    requires p in j.world.stores && Active(j.world.stores[p])
    ensures var id := j.world.stores[p].phase.tx.id;
            && (j.lock.lock != Some(id) ==> Move(j, BeginCommit(p)) == j && Move(j, Publish(p)) == j)
            && (j.fence.Some? ==> Move(j, BeginCommit(p)) == j)
            && (j.fence != Some(id) ==> Move(j, Publish(p)) == j)
  {
  }

  /** A process that dies in a transaction takes its acquisition with it and leaves no fence of
      its own; a failure leaves the acquisition alone. */
  lemma DeathInTransaction<Db>(j: Joint<Db>, p: nat)
    requires p in j.world.stores && Active(j.world.stores[p])
    ensures var id := j.world.stores[p].phase.tx.id;
            var fence := if j.fence == Some(id) then None else j.fence;
            && Move(j, Die(p)) == Joint(L.Apply(j.lock, L.Crash({id})), Step(j.world, Crash(p)), fence)
            && Move(j, Finish(FailHere(p))) == Joint(j.lock, Step(j.world, FailHere(p)), fence)
            && !L.Live(Move(j, Die(p)).lock, id)
  {
  }

  // ----- a careless restoration loses an update

  /** A publication loses an update exactly when the callback, applied to what is published,
      would have left another database. */
  lemma UpdateIsLostExactlyWhen<Db>(db: Db, w: World<Db>, p: nat)
    requires Serial(db, w) && p in w.stores && w.stores[p].phase.Committed?
    ensures var v := Step(w, Rename(p));
            Fold(db, v.log) != Some(v.published) <==> w.stores[p].phase.tx.op(w.published) != Some(w.stores[p].memory)
  {
    PublishedStays(db, w.log, w.stores[p].phase.tx, |w.log|);
  }

  ghost predicate Reached<Db(!new)>(kind: L.Kind, db: Db, j: Joint<Db>) {
    exists es :: MoveAll(Initial(kind, db), es) == j
  }

  lemma {:induction false} MoveAllSnoc<Db>(j: Joint<Db>, es: seq<JointEvent<Db>>, e: JointEvent<Db>)
    ensures MoveAll(j, es + [e]) == Move(MoveAll(j, es), e)
    decreases |es|
  {
    if es == [] {
      assert es + [e] == [e] && [e][1..] == [];
      assert MoveAll(j, [e]) == MoveAll(Move(j, e), []);
    } else {
      assert (es + [e])[1..] == es[1..] + [e];
      MoveAllSnoc(Move(j, es[0]), es[1..], e);
    }
  }

  lemma Next<Db(!new)>(kind: L.Kind, db: Db, j: Joint<Db>, e: JointEvent<Db>) returns (i: Joint<Db>)
    requires Reached(kind, db, j)
    ensures i == Move(j, e) && Reached(kind, db, i)
  {
    var es :| MoveAll(Initial(kind, db), es) == j;
    MoveAllSnoc(Initial(kind, db), es, e);
    i := Move(j, e);
    assert MoveAll(Initial(kind, db), es + [e]) == i;
  }

  /** Before any store is open the lock runs as it likes. */
  lemma {:induction false} LockRuns<Db(!new)>(kind: L.Kind, db: Db, s: L.State, es: seq<L.Event>)
    requires Reached(kind, db, Joint(s, Fresh(db), None))
    ensures Reached(kind, db, Joint(L.Exec(s, es), Fresh(db), None))
    decreases |es|
  {
    if es != [] {
      var i := Next(kind, db, Joint(s, Fresh(db), None), Protocol(es[0]));
      LockRuns(kind, db, L.Apply(s, es[0]), es[1..]);
    }
  }

  /** Stores 0 and 1 at the given phases, with the database loaded by both. */
  ghost predicate Pair<Db>(j: Joint<Db>, db: Db, p0: Phase<Db>, p1: Phase<Db>) {
    && j.world.stores.Keys == {0, 1} && j.world.stores[0] == Store(db, p0) && j.world.stores[1] == Store(db, p1)
    && j.world.published == db && j.world.log == [] && j.fence == None
  }

  lemma BothOpen<Db(!new)>(kind: L.Kind, db: Db) returns (j: Joint<Db>)
    ensures Reached(kind, db, j) && Pair(j, db, Idle, Idle) && j.world.used == {} && j.world.holders == {}
    ensures Handover(kind, j, Some(1), map[13 := 4], 14, L.Holding)
  {
    var s := L.ReachBothHolding(kind);
    var es: seq<L.Event> :| L.Exec(L.Init(kind), es) == s;
    assert MoveAll(Initial(kind, db), []) == Initial(kind, db);
    LockRuns(kind, db, L.Init(kind), es);
    j := Next(kind, db, Joint(s, Fresh(db), None), Work(Open(0)));
    j := Next(kind, db, j, Work(Open(1)));
  }

  /** Both holders start their transactions. */
  lemma BothStart<Db(!new)>(kind: L.Kind, db: Db, t0: Tx<Db>, t1: Tx<Db>) returns (j: Joint<Db>)
    requires t0.id == 1 && t1.id == 4
    ensures Reached(kind, db, j) && Pair(j, db, Locked(t0), Locked(t1))
    ensures Handover(kind, j, Some(1), map[13 := 4], 14, L.Holding)
  {
    j := BothOpen(kind, db);
    assert L.Holds(j.lock, 1) && L.Holds(j.lock, 4);
    j := Next(kind, db, j, Start(0, t0));
    j := Next(kind, db, j, Start(1, t1));
  }

  lemma BothLoad<Db(!new)>(kind: L.Kind, db: Db, t0: Tx<Db>, t1: Tx<Db>) returns (j: Joint<Db>)
    requires t0.id == 1 && t1.id == 4
    ensures Reached(kind, db, j) && Pair(j, db, Loaded(t0, 0), Loaded(t1, 0))
    ensures Handover(kind, j, Some(1), map[13 := 4], 14, L.Holding)
  {
    j := BothStart(kind, db, t0, t1);
    j := Next(kind, db, j, Work(Reload(0)));
    j := Next(kind, db, j, Work(Reload(1)));
  }

  /** Only store `p` differs, and the lock is as it was. */
  ghost predicate Apart<Db>(j: Joint<Db>, i: Joint<Db>, p: nat) {
    && i.lock == j.lock && i.world.stores.Keys == j.world.stores.Keys
    && forall q :: q in j.world.stores && q != p ==> i.world.stores[q] == j.world.stores[q]
  }

  /** The callback runs, the fence is free, and the public name is the holder's own. */
  lemma Commits<Db(!new)>(kind: L.Kind, db: Db, j: Joint<Db>, p: nat) returns (i: Joint<Db>)
    requires Reached(kind, db, j) && p in j.world.stores && j.world.stores[p].phase.Loaded? && j.fence == None
    requires j.lock.lock == Some(j.world.stores[p].phase.tx.id)
    requires j.world.stores[p].phase.tx.op(j.world.stores[p].memory).Some?
    ensures var tx := j.world.stores[p].phase.tx;
            && Reached(kind, db, i) && Apart(j, i, p) && i.fence == Some(tx.id)
            && i.world.stores[p] == Store(tx.op(j.world.stores[p].memory).value, Committed(tx, j.world.stores[p].phase.since))
            && i.world.published == j.world.published && i.world.log == j.world.log && i.world.acknowledged == j.world.acknowledged
  {
    i := Next(kind, db, j, Work(Apply(p)));
    i := Next(kind, db, i, BeginCommit(p));
  }

  lemma Completes<Db(!new)>(kind: L.Kind, db: Db, j: Joint<Db>, p: nat) returns (i: Joint<Db>)
    requires Reached(kind, db, j) && Owns(j, p) && j.fence == Some(j.world.stores[p].phase.tx.id)
    ensures var tx := j.world.stores[p].phase.tx;
            && Reached(kind, db, i) && Apart(j, i, p) && i.fence == None && i.world.stores[p].phase == Idle
            && i.world.published == j.world.stores[p].memory && i.world.log == j.world.log + [tx]
            && i.world.acknowledged == j.world.acknowledged + {tx.id}
  {
    i := Next(kind, db, j, Publish(p));
    i := Answered(kind, db, i, p);
  }

  lemma Answered<Db(!new)>(kind: L.Kind, db: Db, j: Joint<Db>, p: nat) returns (i: Joint<Db>)
    requires Reached(kind, db, j) && p in j.world.stores && j.world.stores[p].phase.Renamed?
    requires j.fence == Some(j.world.stores[p].phase.tx.id)
    ensures Reached(kind, db, i) && Apart(j, i, p) && i.fence == None && i.world.stores[p].phase == Idle
    ensures i.world.published == j.world.published && i.world.log == j.world.log
    ensures i.world.acknowledged == j.world.acknowledged + {j.world.stores[p].phase.tx.id}
  {
    i := Next(kind, db, j, Finish(Sync(p)));
    i := Next(kind, db, i, Answer(p, false));
  }

  /** A holder publishes and is answered. */
  lemma Publishes<Db(!new)>(kind: L.Kind, db: Db, j: Joint<Db>, p: nat) returns (i: Joint<Db>)
    requires Reached(kind, db, j) && p in j.world.stores && j.world.stores[p].phase.Loaded? && j.fence == None
    requires j.lock.lock == Some(j.world.stores[p].phase.tx.id)
    requires j.world.stores[p].phase.tx.op(j.world.stores[p].memory).Some?
    ensures var tx := j.world.stores[p].phase.tx;
            && Reached(kind, db, i) && Apart(j, i, p) && i.fence == None && i.world.stores[p].phase == Idle
            && Some(i.world.published) == tx.op(j.world.stores[p].memory)
            && i.world.log == j.world.log + [tx] && i.world.acknowledged == j.world.acknowledged + {tx.id}
  {
    i := Commits(kind, db, j, p);
    i := Completes(kind, db, i, p);
  }

  /** The lock of the race, with 1 and 3 at the given steps. */
  ghost predicate Handover<Db>(kind: L.Kind, j: Joint<Db>, lock: Option<L.Actor>, links: map<nat, L.Actor>, bound: nat, p1: L.Pc) {
    L.InRace(kind, j.lock, lock, links, bound, p1, L.Exit(kind, L.ToRetry), L.Compare(0, 13), L.Holding)
  }

  /** One step of an acquisition that is in no transaction. */
  lemma LockStep<Db(!new)>(kind: L.Kind, db: Db, j: Joint<Db>, a: L.Actor, c: L.Choice) returns (i: Joint<Db>)
    requires Reached(kind, db, j) && L.Live(j.lock, a) && !InTransaction(j.world, a)
    ensures Reached(kind, db, i) && i == j.(lock := i.lock)
    ensures var (files, next) := L.Move(j.lock, a, c);
            && i.lock.kind == j.lock.kind && i.lock.lock == files.lock && i.lock.quarantined == files.quarantined
            && i.lock.used == files.used && i.lock.dead == j.lock.dead && i.lock.pc == j.lock.pc[a := next]
  {
    L.MoveKeepsPcs(j.lock, a, c);
    i := Next(kind, db, j, Protocol(L.Do(a, c)));
  }

  lemma BeginsRelease<Db(!new)>(kind: L.Kind, db: Db, j: Joint<Db>) returns (i: Joint<Db>)
    requires Reached(kind, db, j) && !InTransaction(j.world, 1) && Handover(kind, j, Some(1), map[13 := 4], 14, L.Holding)
    ensures Reached(kind, db, i) && i == j.(lock := i.lock) && Handover(kind, i, Some(1), map[13 := 4], 14, L.Relinquish)
  {
    i := LockStep(kind, db, j, 1, L.Release);
  }

  lemma Displaces<Db(!new)>(kind: L.Kind, db: Db, j: Joint<Db>) returns (i: Joint<Db>)
    requires Reached(kind, db, j) && !InTransaction(j.world, 1) && Handover(kind, j, Some(1), map[13 := 4], 14, L.Relinquish)
    ensures Reached(kind, db, i) && i == j.(lock := i.lock)
    ensures Handover(kind, i, None, map[13 := 4, 14 := 1], 15, L.OwnCompare(14))
  {
    i := LockStep(kind, db, j, 1, L.Fresh(14));
  }

  /** 1 begins to release, and 3 puts 4 back at the public name. */
  lemma NameChangesHands<Db(!new)>(kind: L.Kind, db: Db, j: Joint<Db>) returns (i: Joint<Db>)
    requires Reached(kind, db, j) && !InTransaction(j.world, 1) && !InTransaction(j.world, 3)
    requires Handover(kind, j, Some(1), map[13 := 4], 14, L.Holding)
    ensures Reached(kind, db, i) && i == j.(lock := i.lock) && i.lock.lock == Some(4)
  {
    i := BeginsRelease(kind, db, j);
    i := Displaces(kind, db, i);
    i := PutsBack(kind, db, i);
  }

  lemma PutsBack<Db(!new)>(kind: L.Kind, db: Db, j: Joint<Db>) returns (i: Joint<Db>)
    requires Reached(kind, db, j) && !InTransaction(j.world, 3)
    requires Handover(kind, j, None, map[13 := 4, 14 := 1], 15, L.OwnCompare(14))
    ensures Reached(kind, db, i) && i == j.(lock := i.lock) && i.lock.lock == Some(4)
  {
    i := Compares(kind, db, j);
    i := LockStep(kind, db, i, 3, L.Go);
  }

  lemma Compares<Db(!new)>(kind: L.Kind, db: Db, j: Joint<Db>) returns (i: Joint<Db>)
    requires Reached(kind, db, j) && !InTransaction(j.world, 3)
    requires Handover(kind, j, None, map[13 := 4, 14 := 1], 15, L.OwnCompare(14))
    ensures Reached(kind, db, i) && i == j.(lock := i.lock) && L.Live(i.lock, 3)
    ensures i.lock.pc[3] == L.Restore(13, L.ToRetry) && i.lock.lock == None && i.lock.quarantined == map[13 := 4, 14 := 1]
  {
    i := LockStep(kind, db, j, 3, L.Go);
  }

  /** After the race of two holders, both transactions pass the fence and the ownership check,
      both are acknowledged, and only the second one's update is left. */
  lemma CarelessRunLosesAnUpdate<Db(!new)>(kind: L.Kind, db: Db, t0: Tx<Db>, t1: Tx<Db>)
    requires t0.id == 1 && t1.id == 4 && t0.op(db).Some? && t1.op(db).Some?
    ensures exists j :: Reached(kind, db, j) && j.world.log == [t0, t1] &&
                        t0.id in j.world.acknowledged && t1.id in j.world.acknowledged && Some(j.world.published) == t1.op(db)
  {
    var j := BothLoad(kind, db, t0, t1);
    j := Publishes(kind, db, j, 0);
    j := NameChangesHands(kind, db, j);
    j := Publishes(kind, db, j, 1);
    assert j.world.log == [t0, t1];
  }
}
