/**
 The host state store: processes that each hold a copy of the database in memory and publish
 it by renaming a whole file, under one lock.

 A transaction or a read is a sequence of steps that may be interleaved with those of other
 processes and cut short by a crash.  `Intrude` is an acquisition beside a holder; module
 LockedStore says when the lock allows it.
 */
module StateStore {
  import opened Options

  /** A transaction's callback: the database it leaves, or nothing when it throws. */
  datatype Tx<!Db> = Tx(id: nat, op: Db -> Option<Db>)

  /** `since` is how much had been published when the store reloaded; no step reads it. */
  datatype Phase<!Db> =
    | Idle
    | Reading(since: nat)
    | Locked(tx: Tx<Db>)
    | Loaded(tx: Tx<Db>, since: nat)
    | Committed(tx: Tx<Db>, since: nat)      // in memory only
    | Renamed(tx: Tx<Db>)                    // on disk, not yet known to be durable
    | Releasing(tx: Tx<Db>, good: bool)

  datatype Store<!Db> = Store(memory: Db, phase: Phase<Db>)

  /** `log`, `acknowledged`, `failed` and `seen` record what happened; no step reads them. */
  datatype World<!Db> = World(
    published: Db,
    holders: set<nat>,
    stores: map<nat, Store<Db>>,
    used: set<nat>,
    log: seq<Tx<Db>>,
    acknowledged: set<nat>,
    failed: set<nat>,
    seen: seq<(Db, nat)>)          // what reads and callbacks were given, and its `since`

  datatype Event<!Db> =
    | Open(store: nat)
    | Begin(store: nat, tx: Tx<Db>)
    | Intrude(store: nat, tx: Tx<Db>)
    | Reload(store: nat)
    | Apply(store: nat)
    | Rename(store: nat)
    | Sync(store: nat)
    | FailHere(store: nat)                  // any step of a transaction or a read throws
    | Release(store: nat, freed: bool, throws: bool)
    | RetryRelease(store: nat)              // at the next acquisition of the process
    | ReloadToRead(store: nat)
    | Read(store: nat)
    | Crash(store: nat)

  function At<Db>(w: World<Db>, p: nat, phase: Phase<Db>): World<Db>
    requires p in w.stores
  {
    w.(stores := w.stores[p := w.stores[p].(phase := phase)])
  }

  function Remember<Db>(w: World<Db>, p: nat, memory: Db, phase: Phase<Db>): World<Db> {
    w.(stores := w.stores[p := Store(memory, phase)])
  }

  function StepBegin<Db>(w: World<Db>, p: nat, tx: Tx<Db>): World<Db>
    requires p in w.stores
  {
    At(w, p, Locked(tx)).(holders := w.holders + {p}, used := w.used + {tx.id})
  }

  /** The operation runs on the store's memory, whatever is there. */
  function Shown<Db>(w: World<Db>, p: nat, since: nat): World<Db>
    requires p in w.stores
  {
    w.(seen := w.seen + [(w.stores[p].memory, since)])
  }

  function StepApply<Db>(w: World<Db>, p: nat): World<Db>
    requires p in w.stores && w.stores[p].phase.Loaded?
  {
    var phase := w.stores[p].phase;
    match phase.tx.op(w.stores[p].memory)
    case None => At(Shown(w, p, phase.since), p, Releasing(phase.tx, false))
    case Some(db) => Remember(Shown(w, p, phase.since), p, db, Committed(phase.tx, phase.since))
  }

  function StepRename<Db>(w: World<Db>, p: nat): World<Db>
    requires p in w.stores && w.stores[p].phase.Committed?
  {
    var tx := w.stores[p].phase.tx;
    At(w, p, Renamed(tx)).(published := w.stores[p].memory, log := w.log + [tx])
  }

  function StepRelease<Db>(w: World<Db>, p: nat, freed: bool, throws: bool): World<Db>
    requires p in w.stores && w.stores[p].phase.Releasing?
  {
    var phase := w.stores[p].phase;
    var w1 := At(w, p, Idle).(holders := if freed then w.holders - {p} else w.holders);
    if phase.good && freed && !throws then w1.(acknowledged := w.acknowledged + {phase.tx.id})
    else w1.(failed := w.failed + {phase.tx.id})
  }

  function StepFail<Db>(w: World<Db>, p: nat): World<Db>
    requires p in w.stores
  {
    var phase := w.stores[p].phase;
    match phase
    case Idle => w
    case Releasing(_, _) => w
    case Reading(_) => At(w, p, Idle)
    case _ => At(w, p, Releasing(phase.tx, false))
  }

  /** An event that is not possible leaves the world unchanged. */
  ghost function Step<Db>(w: World<Db>, e: Event<Db>): World<Db> {
    if e.Open? then
      if e.store in w.stores then w else Remember(w, e.store, w.published, Idle)
    else if e.store !in w.stores then w
    else
      var p, phase := e.store, w.stores[e.store].phase;
      match e
      case Begin(_, tx) => if phase.Idle? && w.holders == {} && tx.id !in w.used then StepBegin(w, p, tx) else w
      case Intrude(_, tx) => if phase.Idle? && p !in w.holders && tx.id !in w.used then StepBegin(w, p, tx) else w
      case Reload(_) => if phase.Locked? then Remember(w, p, w.published, Loaded(phase.tx, |w.log|)) else w
      case Apply(_) => if phase.Loaded? then StepApply(w, p) else w
      case Rename(_) => if phase.Committed? then StepRename(w, p) else w
      case Sync(_) => if phase.Renamed? then At(w, p, Releasing(phase.tx, true)) else w
      case FailHere(_) => StepFail(w, p)
      case Release(_, freed, throws) => if phase.Releasing? then StepRelease(w, p, freed, throws) else w
      case RetryRelease(_) => if phase.Idle? then w.(holders := w.holders - {p}) else w
      case ReloadToRead(_) => if phase.Idle? then Remember(w, p, w.published, Reading(|w.log|)) else w
      case Read(_) => if phase.Reading? then At(Shown(w, p, phase.since), p, Idle) else w
      case Crash(_) => w.(stores := w.stores - {p}, holders := w.holders - {p})
  }

  ghost function Run<Db>(w: World<Db>, es: seq<Event<Db>>): World<Db>
    decreases |es|
  {
    if es == [] then w else Run(Step(w, es[0]), es[1..])
  }

  function Fresh<Db>(db: Db): World<Db> {
    World(db, {}, map[], {}, [], {}, {}, [])
  }

  /** The callbacks applied one after another, each to what the one before left. */
  function Fold<Db>(db: Db, log: seq<Tx<Db>>): Option<Db> {
    if log == [] then Some(db)
    else
      var before := Fold(db, log[..|log| - 1]);
      if before.None? then None else log[|log| - 1].op(before.value)
  }

  predicate Logged<Db>(log: seq<Tx<Db>>, id: nat) {
    exists i :: 0 <= i < |log| && log[i].id == id
  }

  predicate Once<Db>(log: seq<Tx<Db>>) {
    forall i, j :: 0 <= i < j < |log| ==> log[i].id != log[j].id
  }

  // ----- what every run keeps, with one holder or several

  /** `seen` is what had been published when the log was `since` long. */
  ghost predicate WasPublished<Db>(db: Db, log: seq<Tx<Db>>, since: nat, seen: Db) {
    since <= |log| && Fold(db, log[..since]) == Some(seen)
  }

  ghost predicate Known<Db>(db: Db, w: World<Db>, s: Store<Db>) {
    match s.phase
    case Reading(since) => WasPublished(db, w.log, since, s.memory)
    case Loaded(_, since) => WasPublished(db, w.log, since, s.memory)
    case Committed(tx, since) =>
      since <= |w.log| && Fold(db, w.log[..since]).Some? && tx.op(Fold(db, w.log[..since]).value) == Some(s.memory)
    case _ => true
  }

  /** A transaction under way has not been answered, and is logged once it is renamed. */
  ghost predicate Pending<Db>(w: World<Db>, s: Store<Db>) {
    s.phase.Idle? || s.phase.Reading? ||
    (var id := s.phase.tx.id;
     && id in w.used && id !in w.acknowledged && id !in w.failed
     && match s.phase
        case Renamed(_) => Logged(w.log, id)
        case Releasing(_, good) => good ==> Logged(w.log, id)
        case _ => !Logged(w.log, id))
  }

  ghost predicate Recorded<Db>(w: World<Db>) {
    && Once(w.log) && (forall i :: 0 <= i < |w.log| ==> w.log[i].id in w.used)
    && (forall id :: id in w.acknowledged ==> Logged(w.log, id))
    && w.acknowledged + w.failed <= w.used && w.acknowledged !! w.failed
  }

  predicate Active<Db>(s: Store<Db>) { !s.phase.Idle? && !s.phase.Reading? }

  /** No two stores work on the same transaction. */
  ghost predicate Distinct<Db>(w: World<Db>) {
    forall p, q :: p in w.stores && q in w.stores && p != q && Active(w.stores[p]) && Active(w.stores[q]) ==>
      w.stores[p].phase.tx.id != w.stores[q].phase.tx.id
  }

  ghost predicate Accounts<Db>(w: World<Db>) {
    Recorded(w) && Distinct(w) && forall p :: p in w.stores ==> Pending(w, w.stores[p])
  }

  ghost predicate Serial<Db>(db: Db, w: World<Db>) {
    && Fold(db, w.log) == Some(w.published)
    && (forall i :: 0 <= i < |w.seen| ==> WasPublished(db, w.log, w.seen[i].1, w.seen[i].0))
    && (forall p :: p in w.stores ==> Known(db, w, w.stores[p]))
  }

  /** A rename is current when nothing has been published since the store reloaded. */
  predicate Current<Db>(w: World<Db>, e: Event<Db>) {
    e.Rename? && e.store in w.stores && w.stores[e.store].phase.Committed? ==>
      w.stores[e.store].phase.since == |w.log|
  }

  ghost predicate AllCurrent<Db>(w: World<Db>, es: seq<Event<Db>>)
    decreases |es|
  {
    es == [] || (Current(w, es[0]) && AllCurrent(Step(w, es[0]), es[1..]))
  }

  lemma TakeAll<T>(xs: seq<T>)
    ensures xs[..|xs|] == xs
  {
  }

  lemma LoggedMore<Db>(log: seq<Tx<Db>>, tx: Tx<Db>, id: nat)
    ensures Logged(log + [tx], id) <==> Logged(log, id) || tx.id == id
  {
    assert (log + [tx])[|log|] == tx;
    if Logged(log, id) {
      var i :| 0 <= i < |log| && log[i].id == id;
      assert (log + [tx])[i].id == id;
    }
  }

  lemma PublishedStays<Db>(db: Db, log: seq<Tx<Db>>, tx: Tx<Db>, since: nat)
    requires since <= |log|
    ensures (log + [tx])[..since] == log[..since]
    ensures Fold(db, log + [tx]) == if Fold(db, log).None? then None else tx.op(Fold(db, log).value)
  {
    assert (log + [tx])[..|log|] == log;
  }

  // ----- serial publication

  lemma RenameIsSerial<Db>(db: Db, w: World<Db>, p: nat)
    requires Serial(db, w) && p in w.stores && w.stores[p].phase.Committed? && Current(w, Rename(p))
    ensures Serial(db, StepRename(w, p))
  {
    var v, tx := StepRename(w, p), w.stores[p].phase.tx;
    TakeAll(w.log);
    PublishedStays(db, w.log, tx, |w.log|);
    forall since: nat | since <= |w.log| ensures v.log[..since] == w.log[..since] {
      PublishedStays(db, w.log, tx, since);
    }
  }

  /** Steps that move one store and publish nothing. */
  lemma LocalIsSerial<Db>(db: Db, w: World<Db>, v: World<Db>, p: nat)
    requires Serial(db, w) && v.log == w.log && v.published == w.published && v.seen == w.seen
    requires forall q :: q in v.stores && q != p ==> q in w.stores && v.stores[q] == w.stores[q]
    requires p in v.stores ==> Known(db, w, v.stores[p])
    ensures Serial(db, v)
  {
  }

  lemma ShownIsSerial<Db>(db: Db, w: World<Db>, p: nat, since: nat)
    requires Serial(db, w) && p in w.stores && WasPublished(db, w.log, since, w.stores[p].memory)
    ensures Serial(db, Shown(w, p, since))
  {
  }

  lemma ApplyIsSerial<Db>(db: Db, w: World<Db>, p: nat)
    requires Serial(db, w) && p in w.stores && w.stores[p].phase.Loaded?
    ensures Serial(db, StepApply(w, p))
  {
    ShownIsSerial(db, w, p, w.stores[p].phase.since);
    LocalIsSerial(db, Shown(w, p, w.stores[p].phase.since), StepApply(w, p), p);
  }

  lemma ReadIsSerial<Db>(db: Db, w: World<Db>, p: nat)
    requires Serial(db, w) && p in w.stores && w.stores[p].phase.Reading?
    ensures Serial(db, Step(w, Read(p)))
  {
    ShownIsSerial(db, w, p, w.stores[p].phase.since);
    LocalIsSerial(db, Shown(w, p, w.stores[p].phase.since), Step(w, Read(p)), p);
  }

  lemma StepIsSerial<Db>(db: Db, w: World<Db>, e: Event<Db>)
    requires Serial(db, w) && Current(w, e)
    ensures Serial(db, Step(w, e))
  {
    var v := Step(w, e);
    if v != w && e.Rename? { RenameIsSerial(db, w, e.store); }
    else if v != w && e.Apply? { ApplyIsSerial(db, w, e.store); }
    else if v != w && e.Read? { ReadIsSerial(db, w, e.store); }
    else {
      TakeAll(w.log);
      LocalIsSerial(db, w, v, e.store);
    }
  }

  lemma {:induction false} RunIsSerial<Db>(db: Db, w: World<Db>, es: seq<Event<Db>>)
    requires Serial(db, w) && AllCurrent(w, es)
    ensures Serial(db, Run(w, es))
    decreases |es|
  {
    if es != [] {
      StepIsSerial(db, w, es[0]);
      RunIsSerial(db, Step(w, es[0]), es[1..]);
    }
  }

  // ----- one answer for each transaction

  lemma RenameAccounts<Db>(w: World<Db>, p: nat)
    requires Accounts(w) && p in w.stores && w.stores[p].phase.Committed?
    ensures Accounts(StepRename(w, p))
  {
    var v, tx := StepRename(w, p), w.stores[p].phase.tx;
    forall id: nat ensures Logged(v.log, id) <==> Logged(w.log, id) || tx.id == id { LoggedMore(w.log, tx, id); }
  }

  lemma ReleaseAccounts<Db>(w: World<Db>, p: nat, freed: bool, throws: bool)
    requires Accounts(w) && p in w.stores && w.stores[p].phase.Releasing?
    ensures Accounts(StepRelease(w, p, freed, throws))
  {
  }

  lemma BeginAccounts<Db>(w: World<Db>, p: nat, tx: Tx<Db>)
    requires Accounts(w) && p in w.stores && w.stores[p].phase.Idle? && tx.id !in w.used
    ensures Accounts(StepBegin(w, p, tx))
  {
  }

  /** Steps that answer nothing, publish nothing and begin nothing. */
  lemma QuietAccounts<Db>(w: World<Db>, v: World<Db>, p: nat)
    requires Accounts(w) && v.log == w.log && v.used == w.used && v.acknowledged == w.acknowledged && v.failed == w.failed
    requires forall q :: q in v.stores && q != p ==> q in w.stores && v.stores[q] == w.stores[q]
    requires p in v.stores && Active(v.stores[p]) ==>
               p in w.stores && Active(w.stores[p]) && v.stores[p].phase.tx == w.stores[p].phase.tx && Pending(v, v.stores[p])
    ensures Accounts(v)
  {
  }

  lemma StepAccounts<Db>(w: World<Db>, e: Event<Db>)
    requires Accounts(w)
    ensures Accounts(Step(w, e))
  {
    var v := Step(w, e);
    if v != w && e.Rename? { RenameAccounts(w, e.store); }
    else if v != w && e.Release? { ReleaseAccounts(w, e.store, e.freed, e.throws); }
    else if v != w && (e.Begin? || e.Intrude?) { BeginAccounts(w, e.store, e.tx); }
    else { QuietAccounts(w, v, e.store); }
  }

  lemma {:induction false} RunAccounts<Db>(w: World<Db>, es: seq<Event<Db>>)
    requires Accounts(w)
    ensures Accounts(Run(w, es))
    decreases |es|
  {
    if es != [] {
      StepAccounts(w, es[0]);
      RunAccounts(Step(w, es[0]), es[1..]);
    }
  }

  // ----- one holder

  /** Who works on a transaction holds the lock alone, and what it loaded is current. */
  ghost predicate Exclusive<Db>(w: World<Db>) {
    && (forall p :: p in w.stores && Active(w.stores[p]) ==> w.holders == {p})
    && (forall p :: p in w.stores && (w.stores[p].phase.Loaded? || w.stores[p].phase.Committed?) ==>
          w.stores[p].phase.since == |w.log|)
  }

  /** A store moves on without taking or publishing anything. */
  lemma LocalStaysExclusive<Db>(w: World<Db>, v: World<Db>, p: nat)
    requires Exclusive(w) && v.log == w.log
    requires forall q :: q in v.stores && q != p ==> q in w.stores && v.stores[q] == w.stores[q]
    requires (p in w.stores && Active(w.stores[p])) || v.holders == w.holders - {p} || v.holders == w.holders
    requires p in v.stores && Active(v.stores[p]) ==> p in w.stores && Active(w.stores[p]) && v.holders == w.holders
    requires p in v.stores && (v.stores[p].phase.Loaded? || v.stores[p].phase.Committed?) ==>
               v.stores[p].phase.since == |v.log|
    ensures Exclusive(v)
  {
  }

  lemma StepStaysExclusive<Db>(w: World<Db>, e: Event<Db>)
    requires Exclusive(w) && !e.Intrude?
    ensures Exclusive(Step(w, e))
  {
    var v := Step(w, e);
    if v != w && !e.Begin? && !e.Rename? { LocalStaysExclusive(w, v, e.store); }
  }

  /** Without intruders every rename is current. */
  lemma {:induction false} OneHolderIsCurrent<Db>(w: World<Db>, es: seq<Event<Db>>)
    requires Exclusive(w) && forall i :: 0 <= i < |es| ==> !es[i].Intrude?
    ensures AllCurrent(w, es)
    decreases |es|
  {
    if es != [] {
      StepStaysExclusive(w, es[0]);
      OneHolderIsCurrent(Step(w, es[0]), es[1..]);
    }
  }

  // ----- the main results

  /** In every run in which nobody renames what is no longer current, the published database
      is the serial fold of the published callbacks, each applied to the database published
      before it; no callback is applied twice; every acknowledged one is among them and is
      not reported as failed. */
  lemma PublishedIsASerialFold<Db>(db: Db, es: seq<Event<Db>>)
    requires AllCurrent(Fresh(db), es)
    ensures var w := Run(Fresh(db), es);
            && Fold(db, w.log) == Some(w.published) && Once(w.log) && w.acknowledged !! w.failed
            && forall id :: id in w.acknowledged ==> Logged(w.log, id)
  {
    RunIsSerial(db, Fresh(db), es);
    RunAccounts(Fresh(db), es);
  }

  /** With one holder of the lock at a time, that is every run. */
  lemma OneHolderPublishesSerially<Db>(db: Db, es: seq<Event<Db>>)
    requires forall i :: 0 <= i < |es| ==> !es[i].Intrude?
    ensures var w := Run(Fresh(db), es);
            && Fold(db, w.log) == Some(w.published) && Once(w.log) && w.acknowledged !! w.failed
            && forall id :: id in w.acknowledged ==> Logged(w.log, id)
  {
    OneHolderIsCurrent(Fresh(db), es);
    PublishedIsASerialFold(db, es);
  }

  /** Whatever a read or a callback ran on, at whatever time, had been published when it
      reloaded: an in-memory commit that was never published does not leak into it. */
  lemma NothingUnpublishedLeaks<Db>(db: Db, es: seq<Event<Db>>)
    requires AllCurrent(Fresh(db), es)
    ensures var w := Run(Fresh(db), es);
            forall i :: 0 <= i < |w.seen| ==> WasPublished(db, w.log, w.seen[i].1, w.seen[i].0)
  {
    RunIsSerial(db, Fresh(db), es);
  }

  // ----- the end of a transaction

  /** Success is reported exactly when the commit was made durable, the lock given up and
      nothing thrown; a lock that could not be given up is held until the next try. */
  lemma ReleaseReports<Db>(w: World<Db>, p: nat, freed: bool, throws: bool)
    requires p in w.stores && w.stores[p].phase.Releasing?
    requires w.stores[p].phase.tx.id !in w.acknowledged && w.stores[p].phase.tx.id !in w.failed
    ensures var tx, good := w.stores[p].phase.tx, w.stores[p].phase.good;
            var v := Step(w, Release(p, freed, throws));
            && (tx.id in v.acknowledged <==> good && freed && !throws)
            && (tx.id in v.failed <==> !(good && freed && !throws))
            && v.stores == w.stores[p := Store(w.stores[p].memory, Idle)]
            && v.holders == (if freed then w.holders - {p} else w.holders)
            && v.published == w.published && v.log == w.log
            && Step(v, RetryRelease(p)) == v.(holders := w.holders - {p})
  {
  }

  /** A process that dies gives up the lock and its memory, and nothing else. */
  lemma CrashForgets<Db>(w: World<Db>, p: nat)
    requires p in w.stores
    ensures Step(w, Crash(p)) == w.(stores := w.stores - {p}, holders := w.holders - {p})
    ensures Step(Step(w, Crash(p)), Open(p)).stores == w.stores[p := Store(w.published, Idle)]
  {
    assert (w.stores - {p})[p := Store(w.published, Idle)] == w.stores[p := Store(w.published, Idle)];
  }

  /** A store does one thing at a time, and opening it again changes nothing; a read that fails
      leaves everything as it was. */
  lemma OneOperationAtATime<Db>(w: World<Db>, p: nat, tx: Tx<Db>)
    requires p in w.stores
    ensures Step(w, Open(p)) == w
    ensures !w.stores[p].phase.Idle? ==>
              && Step(w, Begin(p, tx)) == w && Step(w, Intrude(p, tx)) == w
              && Step(w, ReloadToRead(p)) == w && Step(w, RetryRelease(p)) == w
    ensures w.stores[p].phase.Idle? ==>
              Step(Step(w, ReloadToRead(p)), FailHere(p)) == w.(stores := w.stores[p := Store(w.published, Idle)])
  {
  }
}
