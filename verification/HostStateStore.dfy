/**
 The state store as an object, each of its transactions a run of module StateStore's steps.
 */
module HostStateStores {
  import opened Options
  import opened StateStore

  /** Where a transaction that is not interfered with goes wrong, if at all. */
  datatype Trouble = Nowhere | Locking | Reloading | Persisting | AfterRename

  /** What is published, what is in memory, and whether success is reported. */
  datatype Effect<!Db> = Effect(published: Db, memory: Db, ok: bool)

  function EffectOf<Db>(published: Db, memory: Db, op: Db -> Option<Db>, trouble: Trouble): Effect<Db> {
    if trouble == Locking || trouble == Reloading then Effect(published, memory, false)
    else
      match op(published)
      case None => Effect(published, published, false)
      case Some(db) => Effect(if trouble == Persisting then published else db, db, trouble == Nowhere)
  }

  /** The steps of a transaction that goes wrong there. */
  function Script<Db>(p: nat, tx: Tx<Db>, trouble: Trouble): seq<Event<Db>> {
    match trouble
    case Locking => []
    case Reloading => [Begin(p, tx), FailHere(p), Release(p, true, false)]
    case Persisting => [Begin(p, tx), Reload(p), Apply(p), FailHere(p), Release(p, true, false)]
    case AfterRename => [Begin(p, tx), Reload(p), Apply(p), Rename(p), FailHere(p), Release(p, true, false)]
    case Nowhere => [Begin(p, tx), Reload(p), Apply(p), Rename(p), Sync(p), Release(p, true, false)]
  }

  ghost predicate Ready<Db>(w: World<Db>, p: nat, tx: Tx<Db>) {
    && p in w.stores && w.stores[p].phase.Idle? && w.holders == {}
    && tx.id !in w.used && tx.id !in w.acknowledged
  }

  lemma RunCons<Db>(w: World<Db>, e: Event<Db>, es: seq<Event<Db>>)
    ensures Run(w, [e] + es) == Run(Step(w, e), es)
  {
    assert ([e] + es)[1..] == es;
  }

  lemma Started<Db>(w: World<Db>, p: nat, tx: Tx<Db>, es: seq<Event<Db>>)
    requires Ready(w, p, tx)
    ensures Run(w, [Begin(p, tx)] + es) == Run(StepBegin(w, p, tx), es)
  {
    RunCons(w, Begin(p, tx), es);
  }

  /** Left alone, the object's transaction is the machine's: same database on disk, same
      memory, acknowledged exactly when success is reported, and the lock free again. */
  lemma TransactionIsARun<Db>(w: World<Db>, p: nat, tx: Tx<Db>, trouble: Trouble)
    requires Ready(w, p, tx)
    ensures var v := Run(w, Script(p, tx, trouble));
            var e := EffectOf(w.published, w.stores[p].memory, tx.op, trouble);
            && v.published == e.published && p in v.stores && v.stores[p] == Store(e.memory, Idle)
            && (tx.id in v.acknowledged <==> e.ok) && v.holders == {}
  {
    var es := Script(p, tx, trouble);
    if trouble != Locking {
      var w1 := StepBegin(w, p, tx);
      Started(w, p, tx, es[1..]);
      assert es == [Begin(p, tx)] + es[1..];
      RunsToTheEnd(w1, p, tx, trouble, es[1..]);
    }
  }

  lemma RunOfTwo<Db>(w: World<Db>, a: Event<Db>, b: Event<Db>, es: seq<Event<Db>>)
    ensures Run(w, [a, b] + es) == Run(Step(Step(w, a), b), es)
  {
    assert [a, b] + es == [a] + ([b] + es);
    RunCons(w, a, [b] + es);
    RunCons(Step(w, a), b, es);
  }

  lemma FailsToReload<Db>(w: World<Db>, p: nat, tx: Tx<Db>)
    requires p in w.stores && w.stores[p].phase == Locked(tx) && w.holders == {p} && tx.id !in w.acknowledged
    ensures var v := Run(w, [FailHere(p), Release(p, true, false)] + []);
            && v.published == w.published && p in v.stores && v.stores[p] == Store(w.stores[p].memory, Idle)
            && tx.id !in v.acknowledged && v.holders == {}
  {
    RunOfTwo(w, FailHere(p), Release(p, true, false), []);
  }

  lemma RunsToTheEnd<Db>(w: World<Db>, p: nat, tx: Tx<Db>, trouble: Trouble, es: seq<Event<Db>>)
    requires p in w.stores && w.stores[p].phase == Locked(tx) && w.holders == {p} && tx.id !in w.acknowledged
    requires trouble != Locking && es == Script(p, tx, trouble)[1..]
    ensures var v := Run(w, es);
            var e := EffectOf(w.published, w.stores[p].memory, tx.op, trouble);
            && v.published == e.published && p in v.stores && v.stores[p] == Store(e.memory, Idle)
            && (tx.id in v.acknowledged <==> e.ok) && v.holders == {}
  {
    if trouble == Reloading {
      assert es == [FailHere(p), Release(p, true, false)] + [];
      FailsToReload(w, p, tx);
    } else {
      var tail := Script(p, tx, trouble)[3..];
      assert es == [Reload(p), Apply(p)] + tail;
      RunOfTwo(w, Reload(p), Apply(p), tail);
      Finishes(Step(Step(w, Reload(p)), Apply(p)), p, tx, trouble, tail);
    }
  }

  /** The callback has run, or it has thrown. */
  ghost predicate Applied<Db>(w: World<Db>, p: nat, tx: Tx<Db>) {
    && p in w.stores && w.holders == {p} && tx.id !in w.acknowledged
    && (w.stores[p].phase == Releasing(tx, false) || (w.stores[p].phase.Committed? && w.stores[p].phase.tx == tx))
  }

  ghost predicate Finished<Db>(w: World<Db>, v: World<Db>, p: nat, tx: Tx<Db>, trouble: Trouble)
    requires p in w.stores
  {
    var done := w.stores[p].phase.Committed?;
    && v.published == (if done && trouble != Persisting then w.stores[p].memory else w.published)
    && p in v.stores && v.stores[p] == Store(w.stores[p].memory, Idle) && v.holders == {}
    && (tx.id in v.acknowledged <==> done && trouble == Nowhere)
  }

  lemma Unpersisted<Db>(w: World<Db>, p: nat, tx: Tx<Db>)
    requires Applied(w, p, tx)
    ensures Finished(w, Step(Step(w, FailHere(p)), Release(p, true, false)), p, tx, Persisting)
  {
  }

  lemma Persisted<Db>(w: World<Db>, p: nat, tx: Tx<Db>, trouble: Trouble)
    requires Applied(w, p, tx) && (trouble == Nowhere || trouble == AfterRename)
    ensures var e := if trouble == Nowhere then Sync(p) else FailHere(p);
            Finished(w, Step(Step(Step(w, Rename(p)), e), Release(p, true, false)), p, tx, trouble)
  {
  }

  lemma Finishes<Db>(w: World<Db>, p: nat, tx: Tx<Db>, trouble: Trouble, es: seq<Event<Db>>)
    requires Applied(w, p, tx)
    requires trouble != Locking && trouble != Reloading && es == Script(p, tx, trouble)[3..]
    ensures Finished(w, Run(w, es), p, tx, trouble)
  {
    var release := Release(p, true, false);
    if trouble == Persisting {
      assert es == [FailHere(p), release] + [];
      RunOfTwo(w, FailHere(p), release, []);
      Unpersisted(w, p, tx);
    } else {
      var e := if trouble == Nowhere then Sync(p) else FailHere(p);
      assert es == [Rename(p), e] + ([release] + []);
      RunOfTwo(w, Rename(p), e, [release] + []);
      RunCons(Step(Step(w, Rename(p)), e), release, []);
      Persisted(w, p, tx, trouble);
    }
  }

  /** So is its read: the operation is shown what is published. */
  lemma ReadIsARun<Db>(w: World<Db>, p: nat)
    requires p in w.stores && w.stores[p].phase.Idle?
    ensures var v := Run(w, [ReloadToRead(p), Read(p)] + []);
            && v.seen == w.seen + [(w.published, |w.log|)] && v.published == w.published
            && p in v.stores && v.stores[p] == Store(w.published, Idle)
  {
    RunOfTwo(w, ReloadToRead(p), Read(p), []);
  }

  class StateFile<Db> {
    var contents: Db

    constructor (contents: Db)
      ensures this.contents == contents
    {
      this.contents := contents;
    }
  }

  class HostStateStore<Db> {
    const file: StateFile<Db>
    var database: Db

    constructor (file: StateFile<Db>)
      ensures this.file == file && database == file.contents
    {
      this.file := file;
      database := file.contents;
    }

    method Reload()
      modifies this
      ensures database == file.contents
    {
      database := file.contents;
    }

    /** The callback gets what is published, never what an earlier failure left in memory. */
    method Transaction(op: Db -> Option<Db>, trouble: Trouble) returns (ok: bool)
      modifies this, file
      ensures Effect(file.contents, database, ok) == EffectOf(old(file.contents), old(database), op, trouble)
    {
      if trouble == Locking || trouble == Reloading { return false; }
      Reload();
      var begun := database;
      match op(database)
      case None =>
        database := begun;
        return false;
      case Some(db) =>
        database := db;
        if trouble == Persisting { return false; }
        file.contents := database;
        return trouble == Nowhere;
    }

    method Read<R>(op: Db -> R) returns (r: R)
      modifies this
      ensures r == op(file.contents)
    {
      Reload();
      r := op(database);
    }
  }
}
