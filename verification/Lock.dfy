/**
 The cross-process lock shared by `acquireStateLock` and `ProcessLock`, on one host.

 Every acquisition ("actor") owns one inode: its owner record.  Two kinds of directory
 entries carry the protocol: the public lock name, and quarantine names made from fresh
 UUIDs.  Owner and proof links are private to their creator and only pin an inode, so
 they are kept in the actor's program counter.  Each link, rename, rm, stat or readdir
 is one step, and any set of acquisitions (those of a crashed process) can die between
 any two steps.
 */
module LockProtocol {
  import opened Options

  type Actor = nat

  datatype Kind = StateLock | ProcessLock

  /** Where restoreQuarantined... continues: inside a reclaim, or inside a relinquish. */
  datatype Resume = ToRetry | ToSweep

  datatype Pc =
    | Start                                   // about to list quarantines before publishing
    | Scan(post: bool, remaining: set<nat>, blocked: bool)
    | ScanRm(post: bool, candidate: nat, remaining: set<nat>, blocked: bool)
    | Publish                                 // about to link(owner, path)
    | Published                               // linked; about to list quarantines again
    | Inspect                                 // link said EEXIST: about to link(path, proof)
    | Judge(proof: Actor)                     // about to read the proof's record
    | Displace(proof: Actor)                  // judged dead: about to rename(path, quarantine)
    | Compare(proof: Actor, q: nat)           // about to compare quarantine with proof
    | RmReclaimed(q: nat)
    | Restore(q: nat, next: Resume)           // about to link(quarantine, path)
    | RestoreCompare(q: nat, next: Resume)    // link said EEXIST
    | RmRestored(q: nat, next: Resume)        // path is known to carry the same inode
    | Holding
    | Relinquish                              // about to rename(path, quarantine)
    | OwnCompare(q: nat)
    | RmOwn(q: nat)
    | SweepList
    | Sweep(remaining: set<nat>)
    | SweepRm(candidate: nat, remaining: set<nat>)
    | Failed                                  // a release threw; it may be retried
    | Done

  /** `lock` is the inode at the public name, `quarantined` the inode at each quarantine
      name, `used` every UUID handed out so far. */
  datatype State = State(
    kind: Kind,
    lock: Option<Actor>,
    quarantined: map<nat, Actor>,
    used: set<nat>,
    pc: map<Actor, Pc>,
    dead: set<Actor>)

  /** What an actor's next step leaves open: the UUID, the scan order, whether a commit
      fence blocks, whether the file system throws, whether the holder releases. */
  datatype Choice = Go | Fresh(id: nat) | Candidate(id: nat) | Fenced | Throw | Release

  datatype Event =
    | Spawn(actor: Actor)
    | Crash(victims: set<Actor>)
    | Do(actor: Actor, choice: Choice)

  function Init(kind: Kind): State {
    State(kind, None, map[], {}, map[], {})
  }

  function At(s: State, a: Actor, pc: Pc): State {
    s.(pc := s.pc[a := pc])
  }

  function Unlink(s: State, q: nat): State {
    s.(quarantined := s.quarantined - {q})
  }

  /** rename(path, quarantine) with a fresh quarantine name. */
  function Rename(s: State, q: nat): State
    requires s.lock.Some?
  {
    s.(lock := None, quarantined := s.quarantined[q := s.lock.value], used := s.used + {q})
  }

  function Exit(kind: Kind, next: Resume): Pc {
    match next
    case ToSweep => SweepList
    case ToRetry => if kind == StateLock then Start else Done
  }

  /** Control flow when the file system throws: a published acquisition relinquishes, a
      failed relinquish is remembered, anything else is simply over. */
  function Thrown(pc: Pc): Pc {
    match pc
    case Scan(post, _, _) => if post then Relinquish else Done
    case ScanRm(post, _, _, _) => if post then Relinquish else Done
    case Published => Relinquish
    case Restore(_, next) => if next == ToSweep then Failed else Done
    case RestoreCompare(_, next) => if next == ToSweep then Failed else Done
    case RmRestored(_, next) => if next == ToSweep then Failed else Done
    case Relinquish => Failed
    case OwnCompare(_) => Failed
    case RmOwn(_) => Failed
    case SweepList => Failed
    case Sweep(_) => Failed
    case SweepRm(_, _) => Failed
    case Holding => Holding
    case Failed => Failed
    case _ => Done
  }

  function ScanStep(s: State, pc: Pc, c: Choice): (State, Pc)
    requires pc.Scan?
  {
    if pc.remaining == {} || (s.kind == ProcessLock && pc.blocked) then
      (s,
         if pc.post then (if pc.blocked then Relinquish else Holding)
         else if !pc.blocked then Publish
         else if s.kind == StateLock then Start
         else Done)
    else if !c.Candidate? || c.id !in pc.remaining then (s, pc)
    else
      var rest := pc.remaining - {c.id};
      if c.id !in s.quarantined then (s, Scan(pc.post, rest, pc.blocked))
      else if s.quarantined[c.id] !in s.dead then (s, Scan(pc.post, rest, true))
      else (s, ScanRm(pc.post, c.id, rest, pc.blocked))
  }

  /** inspectAndReclaim..., up to the point where the displaced inode is known. */
  function ReclaimStep(s: State, pc: Pc, c: Choice): (State, Pc)
    requires pc.Inspect? || pc.Judge? || pc.Displace? || pc.Compare?
  {
    match pc
    case Inspect =>
      if (c == Fenced && s.kind == StateLock) || s.lock.None? then (s, Start)
      else (s, Judge(s.lock.value))
    case Judge(proof) =>
      if proof in s.dead then (s, Displace(proof))
      else (s, if s.kind == StateLock then Start else Done)
    case Displace(proof) =>
      if !c.Fresh? || c.id in s.used then (s, pc)
      else if s.lock.None? then (s, Start)
      else (Rename(s, c.id), Compare(proof, c.id))
    case Compare(proof, q) =>
      if q in s.quarantined && s.quarantined[q] == proof && !(c == Fenced && s.kind == StateLock)
      then (s, RmReclaimed(q))
      else (s, Restore(q, ToRetry))
  }

  function RestoreStep(s: State, pc: Pc): (State, Pc)
    requires pc.Restore? || pc.RestoreCompare?
  {
    match pc
    case Restore(q, next) =>
      if q !in s.quarantined then (s, Exit(s.kind, next))
      else if s.lock.None? then (s.(lock := Some(s.quarantined[q])), RmRestored(q, next))
      else (s, RestoreCompare(q, next))
    case RestoreCompare(q, next) =>
      if q in s.quarantined && s.lock == Some(s.quarantined[q]) then (s, RmRestored(q, next))
      else (s, Restore(q, next))
  }

  function RelinquishStep(s: State, a: Actor, pc: Pc, c: Choice): (State, Pc)
    requires pc.Relinquish? || pc.OwnCompare? || pc.SweepList? || pc.Sweep?
  {
    match pc
    case Relinquish =>
      if !c.Fresh? || c.id in s.used then (s, pc)
      else if s.lock.None? then (s, SweepList)
      else (Rename(s, c.id), OwnCompare(c.id))
    case OwnCompare(q) =>
      if q in s.quarantined && s.quarantined[q] == a then (s, RmOwn(q))
      else (s, Restore(q, ToSweep))
    case SweepList => (s, Sweep(s.quarantined.Keys))
    case Sweep(remaining) =>
      if remaining == {} then (s, if c == Release && s.kind == ProcessLock then Relinquish else Done)
      else if !c.Candidate? || c.id !in remaining then (s, pc)
      else if c.id in s.quarantined && s.quarantined[c.id] == a
      then (s, SweepRm(c.id, remaining - {c.id}))
      else (s, Sweep(remaining - {c.id}))
  }

  /** The file-system effect of an actor's next step, and where it goes. */
  function Move(s: State, a: Actor, c: Choice): (State, Pc)
    requires a in s.pc
  {
    var pc := s.pc[a];
    if c == Throw then (s, Thrown(pc))
    else
      match pc
      case Start =>
        if c == Fenced && s.kind == StateLock then (s, pc)
        else (s, Scan(false, s.quarantined.Keys, false))
      case Scan(_, _, _) => ScanStep(s, pc, c)
      case ScanRm(post, q, rest, blocked) => (Unlink(s, q), Scan(post, rest, blocked))
      case Publish =>
        if s.lock.None? then (s.(lock := Some(a)), Published) else (s, Inspect)
      case Published => (s, Scan(true, s.quarantined.Keys, false))
      case Inspect => ReclaimStep(s, pc, c)
      case Judge(_) => ReclaimStep(s, pc, c)
      case Displace(_) => ReclaimStep(s, pc, c)
      case Compare(_, _) => ReclaimStep(s, pc, c)
      case RmReclaimed(q) => (Unlink(s, q), Start)
      case Restore(_, _) => RestoreStep(s, pc)
      case RestoreCompare(_, _) => RestoreStep(s, pc)
      case RmRestored(q, next) => (Unlink(s, q), Exit(s.kind, next))
      case Holding => if c == Release then (s, Relinquish) else (s, pc)
      case Relinquish => RelinquishStep(s, a, pc, c)
      case OwnCompare(_) => RelinquishStep(s, a, pc, c)
      case RmOwn(q) => (Unlink(s, q), SweepList)
      case SweepList => RelinquishStep(s, a, pc, c)
      case Sweep(_) => RelinquishStep(s, a, pc, c)
      case SweepRm(q, rest) => (Unlink(s, q), Sweep(rest))
      case Failed => if c == Release then (s, Relinquish) else (s, pc)
      case Done => (s, pc)
  }

  function ActorStep(s: State, a: Actor, c: Choice): State
    requires a in s.pc
  {
    var (files, next) := Move(s, a, c);
    At(files, a, next)
  }

  /** One event.  Events that are not possible leave the state alone, so every sequence of
      events is a run. */
  function Apply(s: State, e: Event): State {
    match e
    case Spawn(a) => if a in s.pc then s else At(s, a, Start)
    case Crash(victims) => s.(dead := s.dead + victims)
    case Do(a, c) => if a in s.pc && a !in s.dead then ActorStep(s, a, c) else s
  }

  function Exec(s: State, es: seq<Event>): State
    decreases |es|
  {
    if es == [] then s else Exec(Apply(s, es[0]), es[1..])
  }

  // ----- what the protocol is for

  predicate Live(s: State, a: Actor) { a in s.pc && a !in s.dead }

  /** `a` has linked its record at the public name and has not begun to relinquish it. */
  predicate IsPublished(s: State, a: Actor) {
    a in s.pc &&
    var pc := s.pc[a];
    pc.Published? || (pc.Scan? && pc.post) || (pc.ScanRm? && pc.post) || pc.Holding?
  }

  predicate Linked(s: State, a: Actor) {
    s.lock == Some(a) || a in s.quarantined.Values
  }

  /** Every live published owner still has a link at the lock name or a quarantine name. */
  ghost predicate Retained(s: State) {
    forall a: Actor :: Live(s, a) && IsPublished(s, a) ==> Linked(s, a)
  }

  predicate Holds(s: State, a: Actor) { Live(s, a) && s.pc[a].Holding? }

  ghost predicate Exclusive(s: State) {
    forall a: Actor, b: Actor :: Holds(s, a) && Holds(s, b) ==> a == b
  }

  // ----- the invariant behind retention

  /** Some actor has seen `q`'s inode at the public name and is about to remove `q`. */
  ghost predicate Doomed(s: State, q: nat) {
    exists a: Actor :: a in s.pc && s.pc[a].RmRestored? && s.pc[a].q == q
  }

  ghost predicate SafelyQuarantined(s: State, a: Actor) {
    exists q: nat :: q in s.quarantined && s.quarantined[q] == a && !Doomed(s, q)
  }

  /** The names a program counter remembers. */
  function Names(pc: Pc): set<nat> {
    match pc
    case Scan(_, r, _) => r
    case ScanRm(_, c, r, _) => r + {c}
    case Compare(_, q) => {q}
    case RmReclaimed(q) => {q}
    case Restore(q, _) => {q}
    case RestoreCompare(q, _) => {q}
    case RmRestored(q, _) => {q}
    case OwnCompare(q) => {q}
    case RmOwn(q) => {q}
    case Sweep(r) => r
    case SweepRm(c, r) => r + {c}
    case _ => {}
  }

  /** What an actor has established before it removes a name. */
  ghost predicate Justified(s: State, a: Actor, pc: Pc) {
    match pc
    case Displace(o) => o in s.dead
    case Compare(o, _) => o in s.dead
    case RmReclaimed(q) => q in s.quarantined ==> s.quarantined[q] in s.dead
    case ScanRm(_, q, _, _) => q in s.quarantined ==> s.quarantined[q] in s.dead
    case RmOwn(q) => q in s.quarantined ==> s.quarantined[q] == a
    case SweepRm(q, _) => q in s.quarantined ==> s.quarantined[q] == a
    case _ => true
  }

  ghost predicate Inv(s: State) {
    && s.quarantined.Keys <= s.used
    && (forall a: Actor :: a in s.pc ==> Names(s.pc[a]) <= s.used)
    && (forall a: Actor :: a in s.pc ==> Justified(s, a, s.pc[a]))
    && (forall a: Actor :: Live(s, a) && IsPublished(s, a) ==> s.lock == Some(a) || SafelyQuarantined(s, a))
  }

  // ----- every kind of step keeps the invariant

  /** A step that changes only the actor's program counter. */
  lemma MovePc(s: State, a: Actor, pc: Pc)
    requires Inv(s) && a in s.pc
    requires Names(pc) <= s.used && Justified(s, a, pc)
    requires pc.RmRestored? && pc.q in s.quarantined ==> s.lock == Some(s.quarantined[pc.q])
    requires IsPublished(At(s, a, pc), a) && a !in s.dead ==> IsPublished(s, a) || s.lock == Some(a)
    ensures Inv(At(s, a, pc))
  {
    var t := At(s, a, pc);
    forall x: Actor | Live(t, x) && IsPublished(t, x)
      ensures t.lock == Some(x) || SafelyQuarantined(t, x)
    {
      if s.lock != Some(x) {
        assert IsPublished(s, x);
        var q: nat :| q in s.quarantined && s.quarantined[q] == x && !Doomed(s, q);
        assert !Doomed(t, q);
      }
    }
  }

  /** Removing a quarantine name the actor is entitled to remove. */
  lemma MoveUnlink(s: State, a: Actor, q: nat, pc: Pc)
    requires Inv(s) && a in s.pc && !pc.RmRestored?
    requires Names(pc) <= s.used && Justified(Unlink(s, q), a, pc)
    requires q in s.quarantined ==>
               || s.quarantined[q] in s.dead
               || s.quarantined[q] == a
               || Doomed(s, q)
    requires IsPublished(At(s, a, pc), a) ==> IsPublished(s, a) && (q in s.quarantined ==> s.quarantined[q] in s.dead)
    ensures Inv(At(Unlink(s, q), a, pc))
  {
    var u := Unlink(s, q);
    var t := At(u, a, pc);
    forall x: Actor | Live(t, x) && IsPublished(t, x)
      ensures t.lock == Some(x) || SafelyQuarantined(t, x)
    {
      assert IsPublished(s, x);
      if s.lock != Some(x) {
        var r: nat :| r in s.quarantined && s.quarantined[r] == x && !Doomed(s, r);
        assert r != q;
        assert r in t.quarantined && !Doomed(t, r);
      }
    }
    forall x: Actor | x in t.pc ensures Justified(t, x, t.pc[x]) {
      if x != a { assert Justified(s, x, s.pc[x]); }
    }
  }

  /** Moving the public link to a fresh quarantine name. */
  lemma MoveRename(s: State, a: Actor, q: nat, pc: Pc)
    requires Inv(s) && a in s.pc && s.lock.Some? && q !in s.used
    requires pc == OwnCompare(q) || (pc.Compare? && pc.q == q && pc.proof in s.dead)
    ensures Inv(At(Rename(s, q), a, pc))
  {
    var t := At(Rename(s, q), a, pc);
    forall x: Actor | x in t.pc ensures Justified(t, x, t.pc[x]) && Names(t.pc[x]) <= t.used {
      if x != a { assert Justified(s, x, s.pc[x]) && q !in Names(s.pc[x]); }
    }
    forall x: Actor | Live(t, x) && IsPublished(t, x)
      ensures t.lock == Some(x) || SafelyQuarantined(t, x)
    {
      assert IsPublished(s, x);
      forall r: nat | Doomed(t, r) ensures Doomed(s, r) && r != q {
        var b: Actor :| b in t.pc && t.pc[b].RmRestored? && t.pc[b].q == r;
        assert s.pc[b] == t.pc[b] && r in Names(s.pc[b]);
      }
      if s.lock == Some(x) {
        assert q in t.quarantined && t.quarantined[q] == x && !Doomed(t, q);
      } else {
        var r: nat :| r in s.quarantined && s.quarantined[r] == x && !Doomed(s, r);
        assert r in t.quarantined && t.quarantined[r] == x && !Doomed(t, r);
      }
    }
  }

  /** Linking an inode at the free public name: a publication or a restoration. */
  lemma MoveLink(s: State, a: Actor, owner: Actor, pc: Pc)
    requires Inv(s) && a in s.pc && s.lock.None?
    requires
      || (pc == Published && owner == a)
      || (pc.RmRestored? && pc.q in s.quarantined && s.quarantined[pc.q] == owner)
    ensures Inv(At(s.(lock := Some(owner)), a, pc))
  {
  }

  lemma RemovalKeepsInv(s: State, a: Actor, c: Choice)
    requires Inv(s) && a in s.pc && c != Throw
    requires var pc := s.pc[a]; pc.ScanRm? || pc.SweepRm? || pc.RmReclaimed? || pc.RmRestored? || pc.RmOwn?
    ensures Inv(ActorStep(s, a, c))
  {
    var pc := s.pc[a];
    assert Justified(s, a, pc) && Names(pc) <= s.used;
    var q := if pc.ScanRm? || pc.SweepRm? then pc.candidate else pc.q;
    MoveUnlink(s, a, q, ActorStep(s, a, c).pc[a]);
  }

  lemma RenameKeepsInv(s: State, a: Actor, c: Choice)
    requires Inv(s) && a in s.pc && c != Throw
    requires s.pc[a].Displace? || s.pc[a].Relinquish?
    ensures Inv(ActorStep(s, a, c))
  {
    assert Justified(s, a, s.pc[a]);
    if c.Fresh? && c.id !in s.used {
      var next := ActorStep(s, a, c).pc[a];
      if s.lock.Some? { MoveRename(s, a, c.id, next); } else { MovePc(s, a, next); }
    }
  }

  lemma LinkKeepsInv(s: State, a: Actor, c: Choice)
    requires Inv(s) && a in s.pc && c != Throw
    requires s.pc[a].Publish? || s.pc[a].Restore?
    ensures Inv(ActorStep(s, a, c))
  {
    var pc := s.pc[a];
    assert Names(pc) <= s.used;
    var next := ActorStep(s, a, c).pc[a];
    if s.lock.None? && pc.Publish? {
      MoveLink(s, a, a, next);
    } else if s.lock.None? && pc.Restore? && pc.q in s.quarantined {
      MoveLink(s, a, s.quarantined[pc.q], next);
    } else {
      MovePc(s, a, next);
    }
  }

  lemma ThrowKeepsInv(s: State, a: Actor)
    requires Inv(s) && a in s.pc
    ensures Inv(ActorStep(s, a, Throw))
  {
    assert Names(Thrown(s.pc[a])) == {};
    MovePc(s, a, Thrown(s.pc[a]));
  }

  lemma ScanKeepsInv(s: State, a: Actor, c: Choice)
    requires Inv(s) && a in s.pc && c != Throw
    requires s.pc[a].Start? || s.pc[a].Published? || s.pc[a].Scan?
    ensures Inv(ActorStep(s, a, c))
  {
    var t := ActorStep(s, a, c);
    assert Names(s.pc[a]) <= s.used;
    if t != s {
      var next := t.pc[a];
      assert t == At(s, a, next);
      MovePc(s, a, next);
    }
  }

  lemma JudgeKeepsInv(s: State, a: Actor, c: Choice)
    requires Inv(s) && a in s.pc && c != Throw
    requires var pc := s.pc[a]; pc.Inspect? || pc.Judge? || pc.Compare? || pc.RestoreCompare?
    ensures Inv(ActorStep(s, a, c))
  {
    var next := ActorStep(s, a, c).pc[a];
    assert Names(s.pc[a]) <= s.used && Justified(s, a, s.pc[a]);
    assert ActorStep(s, a, c) == At(s, a, next);
    MovePc(s, a, next);
  }

  lemma SweepKeepsInv(s: State, a: Actor, c: Choice)
    requires Inv(s) && a in s.pc && c != Throw
    requires var pc := s.pc[a];
             pc.OwnCompare? || pc.SweepList? || pc.Sweep? || pc.Holding? || pc.Failed? || pc.Done?
    ensures Inv(ActorStep(s, a, c))
  {
    var t := ActorStep(s, a, c);
    assert Names(s.pc[a]) <= s.used;
    if t != s {
      var next := t.pc[a];
      assert t == At(s, a, next);
      MovePc(s, a, next);
    }
  }

  lemma StepKeepsInv(s: State, a: Actor, c: Choice)
    requires Inv(s) && a in s.pc && a !in s.dead
    ensures Inv(ActorStep(s, a, c))
  {
    if c == Throw { ThrowKeepsInv(s, a); return; }
    match s.pc[a]
    case Start => ScanKeepsInv(s, a, c);
    case Published => ScanKeepsInv(s, a, c);
    case Scan(_, _, _) => ScanKeepsInv(s, a, c);
    case Inspect => JudgeKeepsInv(s, a, c);
    case Judge(_) => JudgeKeepsInv(s, a, c);
    case Compare(_, _) => JudgeKeepsInv(s, a, c);
    case RestoreCompare(_, _) => JudgeKeepsInv(s, a, c);
    case Displace(_) => RenameKeepsInv(s, a, c);
    case Relinquish => RenameKeepsInv(s, a, c);
    case Publish => LinkKeepsInv(s, a, c);
    case Restore(_, _) => LinkKeepsInv(s, a, c);
    case ScanRm(_, _, _, _) => RemovalKeepsInv(s, a, c);
    case RmReclaimed(_) => RemovalKeepsInv(s, a, c);
    case RmRestored(_, _) => RemovalKeepsInv(s, a, c);
    case RmOwn(_) => RemovalKeepsInv(s, a, c);
    case SweepRm(_, _) => RemovalKeepsInv(s, a, c);
    case OwnCompare(_) => SweepKeepsInv(s, a, c);
    case SweepList => SweepKeepsInv(s, a, c);
    case Sweep(_) => SweepKeepsInv(s, a, c);
    case Holding => SweepKeepsInv(s, a, c);
    case Failed => SweepKeepsInv(s, a, c);
    case Done => SweepKeepsInv(s, a, c);
  }

  lemma ApplyKeepsInv(s: State, e: Event)
    requires Inv(s)
    ensures Inv(Apply(s, e))
  {
    match e
    case Spawn(a) =>
      if a !in s.pc {
        var t := Apply(s, e);
        forall x: Actor | Live(t, x) && IsPublished(t, x)
          ensures t.lock == Some(x) || SafelyQuarantined(t, x)
        {
          assert IsPublished(s, x);
          SameDoom(s, t);
        }
        forall x: Actor | x in t.pc ensures Justified(t, x, t.pc[x]) {
          if x != a { assert Justified(s, x, s.pc[x]); }
        }
      }
    case Crash(victims) =>
      var t := Apply(s, e);
      SameDoom(s, t);
      forall x: Actor | x in t.pc ensures Justified(t, x, t.pc[x]) {
        assert Justified(s, x, s.pc[x]);
      }
    case Do(a, c) => if a in s.pc && a !in s.dead { StepKeepsInv(s, a, c); }
  }

  lemma SameDoom(s: State, t: State)
    requires s.quarantined == t.quarantined
    requires forall a: Actor :: a in s.pc ==> a in t.pc && t.pc[a] == s.pc[a]
    requires forall a: Actor :: a in t.pc && a !in s.pc ==> t.pc[a] == Start
    ensures forall x: Actor :: SafelyQuarantined(s, x) ==> SafelyQuarantined(t, x)
  {
  }

  lemma {:induction false} RunKeepsInv(s: State, es: seq<Event>)
    requires Inv(s)
    ensures Inv(Exec(s, es))
    decreases |es|
  {
    if es != [] {
      ApplyKeepsInv(s, es[0]);
      RunKeepsInv(Apply(s, es[0]), es[1..]);
    }
  }

  /** For every interleaving of file-system calls and crashes: a live owner that has
      published its record, and has not begun to relinquish it, is never unlinked. */
  lemma Retention(kind: Kind, es: seq<Event>)
    ensures Retained(Exec(Init(kind), es))
  {
    RunKeepsInv(Init(kind), es);
    var s := Exec(Init(kind), es);
    forall a: Actor | Live(s, a) && IsPublished(s, a) ensures Linked(s, a) {
      if s.lock != Some(a) {
        var q: nat :| q in s.quarantined && s.quarantined[q] == a && !Doomed(s, q);
        assert s.quarantined[q] in s.quarantined.Values;
      }
    }
  }

  // ----- mutual exclusion

  /** `a` has listed the quarantines after publishing and is still reading them. */
  predicate MidScan(s: State, a: Actor) {
    a in s.pc && ((s.pc[a].Scan? && s.pc[a].post) || (s.pc[a].ScanRm? && s.pc[a].post))
  }

  /** The event re-links a quarantined inode at the public name. */
  predicate Restores(s: State, e: Event) {
    e.Do? && e.choice != Throw && Live(s, e.actor) && s.pc[e.actor].Restore? &&
    s.lock.None? && s.pc[e.actor].q in s.quarantined
  }

  /** No quarantined link is put back while a live acquisition reads the quarantines it
      listed after publishing.  Scans taken as one step always satisfy this. */
  ghost predicate Disciplined(s: State, es: seq<Event>)
    decreases |es|
  {
    es != [] ==>
      && (Restores(s, es[0]) ==> forall a: Actor :: Live(s, a) ==> !MidScan(s, a))
      && Disciplined(Apply(s, es[0]), es[1..])
  }

  /** `a` holds the lock, or is on its way to hold it. */
  predicate Contending(s: State, a: Actor) {
    Live(s, a) && (s.pc[a].Holding? || (MidScan(s, a) && !s.pc[a].blocked))
  }

  /** The actor has displaced the link now called `q`, and will put it back or remove it. */
  predicate Custodian(pc: Pc, q: nat) {
    match pc
    case Compare(_, n) => n == q
    case OwnCompare(n) => n == q
    case Restore(n, _) => n == q
    case RestoreCompare(n, _) => n == q
    case RmRestored(n, _) => n == q
    case _ => false
  }

  predicate Removing(pc: Pc, q: nat) { pc.RmRestored? && pc.q == q }

  ghost predicate Unkept(s: State, q: nat) { forall c: Actor :: Live(s, c) ==> !Custodian(s.pc[c], q) }

  ghost predicate Unremoved(s: State, q: nat) { forall c: Actor :: Live(s, c) ==> !Removing(s.pc[c], q) }

  /** The link `q` of owner `y` stays where it is until a restoration: nobody alive has it in
      hand, or its owner is not at the public name and nobody alive is removing it. */
  ghost predicate Stuck(s: State, q: nat, y: Actor) {
    && q in s.quarantined && s.quarantined[q] == y
    && (Unkept(s, q) || (s.lock != Some(y) && Unremoved(s, q)))
  }

  /** The names a scanner has yet to read. */
  function Ahead(s: State, b: Actor): set<nat> { if MidScan(s, b) then s.pc[b].remaining else {} }

  /** Scanner `b` will still read a link of `y`. */
  ghost predicate WillSee(s: State, b: Actor, y: Actor) {
    exists q: nat :: q in Ahead(s, b) && Stuck(s, q, y)
  }

  ghost predicate OneYields(s: State, a: Actor, b: Actor) {
    WillSee(s, a, a) || WillSee(s, a, b) || WillSee(s, b, a) || WillSee(s, b, b)
  }

  /** Of any two contenders one will still read a link, of either, that cannot go away. */
  ghost predicate Covered(s: State) {
    forall a: Actor, b: Actor :: a != b && Contending(s, a) && Contending(s, b) ==> OneYields(s, a, b)
  }

  ghost predicate LocalTo(s: State, a: Actor, t: State) {
    && t.dead == s.dead && a in t.pc
    && forall b: Actor :: b != a ==> (b in t.pc <==> b in s.pc) && (b in s.pc ==> t.pc[b] == s.pc[b])
  }

  lemma MoveKeepsPcs(s: State, a: Actor, c: Choice)
    requires Live(s, a)
    ensures var (files, _) := Move(s, a, c); files.pc == s.pc && files.dead == s.dead && files.kind == s.kind
  {
  }

  lemma StepIsLocal(s: State, a: Actor, c: Choice)
    requires Live(s, a)
    ensures LocalTo(s, a, ActorStep(s, a, c))
  {
  }

  /** What one actor's step can do to the public link. */
  lemma LinkEffects(s: State, a: Actor, c: Choice)
    requires Live(s, a)
    ensures var t := ActorStep(s, a, c);
            && (t.lock == s.lock || t.lock == None || Restores(s, Do(a, c)) || (t.lock == Some(a) && s.pc[a].Publish?))
            && (t.pc[a].RmRestored? ==>
                  || t.pc[a] == s.pc[a]
                  || Restores(s, Do(a, c))
                  || (t.pc[a].q in s.quarantined && s.lock == Some(s.quarantined[t.pc[a].q])))
  {
  }

  /** What one actor's step can do to a quarantine name. */
  lemma NameEffects(s: State, a: Actor, c: Choice, q: nat)
    requires Live(s, a) && Justified(s, a, s.pc[a]) && q in s.used && q in s.quarantined
    ensures var t := ActorStep(s, a, c);
            if q in t.quarantined then t.quarantined[q] == s.quarantined[q]
            else
              || s.quarantined[q] in s.dead
              || (s.quarantined[q] == a && !IsPublished(s, a))
              || (s.pc[a].RmRestored? && s.pc[a].q == q)
  {
  }

  /** Contenders are made only by listing the quarantines after publishing. */
  lemma ContendersStay(s: State, a: Actor, c: Choice)
    requires Live(s, a)
    ensures Contending(ActorStep(s, a, c), a) ==> Contending(s, a) || (s.pc[a].Published? && c != Throw)
    ensures Contending(ActorStep(s, a, c), a) && MidScan(s, a) ==>
              || (s.pc[a].remaining == {} && !s.pc[a].blocked)
              || (MidScan(ActorStep(s, a, c), a) &&
                  forall q: nat :: q in s.pc[a].remaining && q in s.quarantined && s.quarantined[q] !in s.dead ==>
                    q in ActorStep(s, a, c).pc[a].remaining)
  {
  }

  /** Apart from restorations, no step takes a live published owner's safe quarantine name
      away or puts that owner back at the public name. */
  lemma QuarantineStays(s: State, a: Actor, c: Choice, q: nat, x: Actor)
    requires Live(s, a) && Justified(s, a, s.pc[a]) && s.quarantined.Keys <= s.used
    requires Live(s, x) && IsPublished(s, x)
    requires q in s.quarantined && s.quarantined[q] == x && !Doomed(s, q) && s.lock != Some(x)
    requires !Restores(s, Do(a, c))
    ensures var t := ActorStep(s, a, c);
            q in t.quarantined && t.quarantined[q] == x && !Doomed(t, q) && t.lock != Some(x)
  {
    var t := ActorStep(s, a, c);
    StepIsLocal(s, a, c);
    LinkEffects(s, a, c);
    NameEffects(s, a, c, q);
  }

  /** Custody of a name begins with the rename that makes the name. */
  lemma CustodyEffects(s: State, a: Actor, c: Choice, q: nat)
    requires Live(s, a) && q in s.used
    ensures Custodian(ActorStep(s, a, c).pc[a], q) ==> Custodian(s.pc[a], q)
  {
  }

  lemma StuckStays(s: State, a: Actor, c: Choice, q: nat, x: Actor)
    requires Live(s, a) && Justified(s, a, s.pc[a]) && s.quarantined.Keys <= s.used
    requires Live(s, x) && IsPublished(s, x) && Stuck(s, q, x)
    requires !Restores(s, Do(a, c))
    ensures Stuck(ActorStep(s, a, c), q, x)
  {
    var t := ActorStep(s, a, c);
    StepIsLocal(s, a, c);
    LinkEffects(s, a, c);
    NameEffects(s, a, c, q);
    CustodyEffects(s, a, c, q);
    if Unkept(s, q) { assert Unkept(t, q); } else { assert Unremoved(t, q); }
  }

  lemma WillSeeStays(s: State, a: Actor, c: Choice, b: Actor, x: Actor)
    requires Live(s, a) && Justified(s, a, s.pc[a]) && s.quarantined.Keys <= s.used
    requires Live(s, x) && IsPublished(s, x) && WillSee(s, b, x)
    requires !Restores(s, Do(a, c))
    ensures var t := ActorStep(s, a, c); Contending(t, b) ==> WillSee(t, b, x)
  {
    var t := ActorStep(s, a, c);
    var q: nat :| q in Ahead(s, b) && Stuck(s, q, x);
    StuckStays(s, a, c, q, x);
    StepIsLocal(s, a, c);
    if Contending(t, b) {
      if a == b { ContendersStay(s, a, c); }
      assert q in Ahead(t, b);
    }
  }

  /** A contender that starts reading the quarantines sees one of the two, because at most
      one of them can be at the public name. */
  lemma FreshScanSees(s: State, b: Actor, c: Choice, a: Actor)
    requires Inv(s) && Live(s, b) && s.pc[b].Published? && c != Throw
    requires a != b && Contending(s, a)
    ensures OneYields(ActorStep(s, b, c), a, b)
  {
    var t := ActorStep(s, b, c);
    var x := if s.lock == Some(a) then b else a;
    assert IsPublished(s, a) && IsPublished(s, b);
    var q: nat :| q in s.quarantined && s.quarantined[q] == x && !Doomed(s, q);
    assert q in Ahead(t, b) && Stuck(t, q, x);
    assert WillSee(t, b, x);
  }

  lemma OneStillYields(s: State, p: Actor, c: Choice, a: Actor, b: Actor)
    requires Live(s, p) && Justified(s, p, s.pc[p]) && s.quarantined.Keys <= s.used
    requires Contending(s, a) && Contending(s, b) && OneYields(s, a, b)
    requires !Restores(s, Do(p, c))
    ensures var t := ActorStep(s, p, c); Contending(t, a) && Contending(t, b) ==> OneYields(t, a, b)
  {
    if WillSee(s, a, a) { WillSeeStays(s, p, c, a, a); }
    else if WillSee(s, a, b) { WillSeeStays(s, p, c, a, b); }
    else if WillSee(s, b, a) { WillSeeStays(s, p, c, b, a); }
    else { WillSeeStays(s, p, c, b, b); }
  }

  lemma ActorKeepsCovered(s: State, p: Actor, c: Choice)
    requires Inv(s) && Covered(s) && Live(s, p) && !Restores(s, Do(p, c))
    ensures Covered(ActorStep(s, p, c))
  {
    var t := ActorStep(s, p, c);
    assert Justified(s, p, s.pc[p]);
    forall a: Actor, b: Actor | a != b && Contending(t, a) && Contending(t, b)
      ensures OneYields(t, a, b)
    {
      StepIsLocal(s, p, c);
      ContendersStay(s, p, c);
      if s.pc[p].Published? && c != Throw && (p == a || p == b) {
        FreshScanSees(s, p, c, if p == a then b else a);
      } else {
        assert Contending(s, a) && Contending(s, b);
        OneStillYields(s, p, c, a, b);
      }
    }
  }

  /** Births and deaths take nothing from what scanners will see. */
  lemma OthersKeepCovered(s: State, e: Event)
    requires Covered(s) && !e.Do?
    ensures Covered(Apply(s, e))
  {
    var t := Apply(s, e);
    forall a: Actor, b: Actor | a != b && Contending(t, a) && Contending(t, b) ensures OneYields(t, a, b) {
      assert Contending(s, a) && Contending(s, b);
      forall y: Actor, x: Actor | WillSee(s, y, x) ensures WillSee(t, y, x) {
        var q: nat :| q in Ahead(s, y) && Stuck(s, q, x);
        assert q in Ahead(t, y);
        assert Unkept(s, q) ==> Unkept(t, q);
        assert Unremoved(s, q) ==> Unremoved(t, q);
      }
    }
  }

  /** With no scan under way there is at most one contender, and a restoration makes none. */
  lemma IdleRestorationKeepsCovered(s: State, e: Event)
    requires Covered(s) && Restores(s, e) && forall a: Actor :: Live(s, a) ==> !MidScan(s, a)
    ensures Covered(Apply(s, e))
  {
    var t := Apply(s, e);
    StepIsLocal(s, e.actor, e.choice);
    ContendersStay(s, e.actor, e.choice);
    forall a: Actor, b: Actor | Contending(s, a) && Contending(s, b) ensures a == b {
      assert Ahead(s, a) == {} && Ahead(s, b) == {};
    }
    assert forall a: Actor :: Contending(t, a) ==> Contending(s, a);
  }

  /** Every restoration leaves the contenders covered. */
  ghost predicate Careful(s: State, es: seq<Event>)
    decreases |es|
  {
    es != [] ==> (Restores(s, es[0]) ==> Covered(Apply(s, es[0]))) && Careful(Apply(s, es[0]), es[1..])
  }

  lemma StepKeepsCovered(s: State, e: Event)
    requires Inv(s) && Covered(s) && (Restores(s, e) ==> Covered(Apply(s, e)))
    ensures Covered(Apply(s, e))
  {
    if !e.Do? { OthersKeepCovered(s, e); }
    else if Live(s, e.actor) && !Restores(s, e) { ActorKeepsCovered(s, e.actor, e.choice); }
  }

  lemma {:induction false} RunKeepsCovered(s: State, es: seq<Event>)
    requires Inv(s) && Covered(s) && Careful(s, es)
    ensures Covered(Exec(s, es))
    decreases |es|
  {
    if es != [] {
      StepKeepsCovered(s, es[0]);
      ApplyKeepsInv(s, es[0]);
      RunKeepsCovered(Apply(s, es[0]), es[1..]);
    }
  }

  lemma {:induction false} DisciplinedIsCareful(s: State, es: seq<Event>)
    requires Inv(s) && Covered(s) && Disciplined(s, es)
    ensures Careful(s, es)
    decreases |es|
  {
    if es != [] {
      if Restores(s, es[0]) { IdleRestorationKeepsCovered(s, es[0]); }
      StepKeepsCovered(s, es[0]);
      ApplyKeepsInv(s, es[0]);
      DisciplinedIsCareful(Apply(s, es[0]), es[1..]);
    }
  }

  lemma CoveredIsExclusive(s: State)
    requires Covered(s)
    ensures Exclusive(s)
  {
    forall a: Actor, b: Actor | Holds(s, a) && Holds(s, b) ensures a == b {
      assert Ahead(s, a) == {} && Ahead(s, b) == {};
      assert Contending(s, a) && Contending(s, b);
    }
  }

  /** At most one live acquisition holds a returned lock, in every run whose restorations
      leave the contenders covered. */
  lemma CarefulRunsExclude(kind: Kind, es: seq<Event>)
    requires Careful(Init(kind), es)
    ensures Exclusive(Exec(Init(kind), es))
  {
    RunKeepsCovered(Init(kind), es);
    CoveredIsExclusive(Exec(Init(kind), es));
  }

  /** In particular when nothing is put back during a scan. */
  lemma MutualExclusion(kind: Kind, es: seq<Event>)
    requires Disciplined(Init(kind), es)
    ensures Exclusive(Exec(Init(kind), es))
  {
    DisciplinedIsCareful(Init(kind), es);
    CarefulRunsExclude(kind, es);
  }

  /** Every scan after publishing runs to its end before another acquisition moves. */
  ghost predicate AtomicScans(s: State, es: seq<Event>)
    decreases |es|
  {
    es != [] ==>
      && (es[0].Do? ==> forall a: Actor :: Live(s, a) && MidScan(s, a) ==> a == es[0].actor)
      && AtomicScans(Apply(s, es[0]), es[1..])
  }

  lemma {:induction false} AtomicScansAreDisciplined(s: State, es: seq<Event>)
    requires AtomicScans(s, es)
    ensures Disciplined(s, es)
    decreases |es|
  {
    if es != [] {
      AtomicScansAreDisciplined(Apply(s, es[0]), es[1..]);
    }
  }

  // ----- a race

  ghost predicate Reaches(kind: Kind, s: State) {
    exists es: seq<Event> :: Exec(Init(kind), es) == s
  }

  lemma {:induction false} ExecSnoc(s: State, es: seq<Event>, e: Event)
    ensures Exec(s, es + [e]) == Apply(Exec(s, es), e)
    decreases |es|
  {
    if es == [] {
      assert Exec(s, [e]) == Exec(Apply(s, e), [e][1..]);
    } else {
      assert (es + [e])[1..] == es[1..] + [e];
      ExecSnoc(Apply(s, es[0]), es[1..], e);
    }
  }

  /** One more event of a run in which `a` moves: the state it leads to. */
  lemma Reach(kind: Kind, s: State, a: Actor, c: Choice) returns (t: State)
    requires Reaches(kind, s) && Live(s, a)
    ensures t == ActorStep(s, a, c) && Reaches(kind, t)
  {
    var es: seq<Event> :| Exec(Init(kind), es) == s;
    ExecSnoc(Init(kind), es, Do(a, c));
    t := ActorStep(s, a, c);
  }

  lemma AtAt(s: State, a: Actor, p: Pc, q: Pc)
    ensures At(At(s, a, p), a, q) == At(s, a, q)
  {
  }

  /** With no quarantine in sight, a new acquisition gets as far as publishing. */
  lemma ReachPublish(kind: Kind, s: State, a: Actor)
    requires Reaches(kind, s) && a !in s.dead && s.quarantined == map[]
    requires a !in s.pc || s.pc[a] == Start
    ensures Reaches(kind, At(s, a, Publish))
  {
    var es: seq<Event> :| Exec(Init(kind), es) == s;
    ExecSnoc(Init(kind), es, Spawn(a));
    var t := At(s, a, Start);
    assert a in s.pc ==> s.pc == s.pc[a := Start];
    t := Reach(kind, t, a, Go);
    t := Reach(kind, t, a, Go);
    AtAt(s, a, Start, Scan(false, {}, false));
    AtAt(s, a, Scan(false, {}, false), Publish);
  }

  lemma ReachJudge(kind: Kind, s: State, a: Actor, owner: Actor)
    requires Reaches(kind, s) && a !in s.dead && s.quarantined == map[] && a !in s.pc && s.lock == Some(owner)
    ensures Reaches(kind, At(s, a, Judge(owner)))
  {
    ReachPublish(kind, s, a);
    var t := Reach(kind, At(s, a, Publish), a, Go);
    t := Reach(kind, t, a, Go);
    AtAt(s, a, Publish, Inspect);
    AtAt(s, a, Inspect, Judge(owner));
  }

  /** While the public name carries a dead owner, a new acquisition can judge it dead and
      pause just before displacing whatever is there. */
  lemma ReachDisplace(kind: Kind, s: State, a: Actor, owner: Actor)
    requires Reaches(kind, s) && a !in s.dead && s.quarantined == map[] && a !in s.pc
    requires s.lock == Some(owner) && owner in s.dead
    ensures Reaches(kind, At(s, a, Displace(owner)))
  {
    ReachJudge(kind, s, a, owner);
    var t := Reach(kind, At(s, a, Judge(owner)), a, Go);
    AtAt(s, a, Judge(owner), Displace(owner));
  }

  /** A state of the race: owner 0 is dead, acquisitions 1 to 4 are at the given steps. */
  ghost predicate InRace(kind: Kind, s: State, lock: Option<Actor>, quarantined: map<nat, Actor>, bound: nat,
                         p1: Pc, p2: Pc, p3: Pc, p4: Pc)
  {
    && s.kind == kind && s.lock == lock && s.quarantined == quarantined && s.dead == {0}
    && (forall u: nat :: u in s.used ==> u < bound)
    && {1, 2, 3, 4} <= s.pc.Keys
    && s.pc[1] == p1 && s.pc[2] == p2 && s.pc[3] == p3 && s.pc[4] == p4
  }

  lemma RaceStep(kind: Kind, s: State, a: Actor, c: Choice) returns (t: State)
    requires Reaches(kind, s) && Live(s, a)
    ensures Reaches(kind, t)
    ensures var (files, next) := Move(s, a, c);
            && t.kind == s.kind && t.lock == files.lock && t.quarantined == files.quarantined && t.used == files.used
            && t.dead == s.dead && t.pc.Keys == s.pc.Keys && t.pc[a] == next
            && forall b: Actor :: b in s.pc && b != a ==> t.pc[b] == s.pc[b]
  {
    var (files, next) := Move(s, a, c);
    assert files.pc == s.pc && files.dead == s.dead && files.kind == s.kind by { MoveKeepsPcs(s, a, c); }
    t := Reach(kind, s, a, c);
    assert t == At(files, a, next);
  }

  /** Owner 0 publishes and dies. */
  lemma ReachCrashed(kind: Kind) returns (t: State)
    ensures Reaches(kind, t) && t.kind == kind
    ensures t.lock == Some(0) && t.quarantined == map[] && t.used == {} && t.pc.Keys == {0} && t.dead == {0}
  {
    assert Exec(Init(kind), []) == Init(kind);
    ReachPublish(kind, Init(kind), 0);
    t := Reach(kind, At(Init(kind), 0, Publish), 0, Go);
    var es: seq<Event> :| Exec(Init(kind), es) == t;
    ExecSnoc(Init(kind), es, Crash({0}));
    t := Apply(t, Crash({0}));
  }

  /** 1, 2 and 3 have judged owner 0 dead; 4 is about to start. */
  lemma ReachJudged(kind: Kind) returns (t: State)
    ensures Reaches(kind, t)
    ensures InRace(kind, t, Some(0), map[], 0, Displace(0), Displace(0), Displace(0), Start)
  {
    t := ReachCrashed(kind);
    ReachDisplace(kind, t, 1, 0);
    t := At(t, 1, Displace(0));
    ReachDisplace(kind, t, 2, 0);
    t := At(t, 2, Displace(0));
    ReachDisplace(kind, t, 3, 0);
    t := At(t, 3, Displace(0));
    var es: seq<Event> :| Exec(Init(kind), es) == t;
    ExecSnoc(Init(kind), es, Spawn(4));
    t := Apply(t, Spawn(4));
  }

  /** 1 displaces the dead owner's lock. */
  lemma ReachDisplaced(kind: Kind) returns (t: State)
    ensures Reaches(kind, t)
    ensures InRace(kind, t, None, map[10 := 0], 11, Compare(0, 10), Displace(0), Displace(0), Start)
  {
    t := ReachJudged(kind);
    t := RaceStep(kind, t, 1, Fresh(10));
  }

  lemma ReachCompared(kind: Kind) returns (t: State)
    ensures Reaches(kind, t)
    ensures InRace(kind, t, None, map[10 := 0], 11, RmReclaimed(10), Displace(0), Displace(0), Start)
  {
    t := ReachDisplaced(kind);
    t := RaceStep(kind, t, 1, Go);
  }

  /** 1 removes it. */
  lemma ReachRemoved(kind: Kind) returns (t: State)
    ensures Reaches(kind, t)
    ensures InRace(kind, t, None, map[], 11, Start, Displace(0), Displace(0), Start)
  {
    t := ReachCompared(kind);
    t := RaceStep(kind, t, 1, Go);
  }

  /** 1 and 4 come to publish. */
  lemma ReachReclaimed(kind: Kind) returns (t: State)
    ensures Reaches(kind, t)
    ensures InRace(kind, t, None, map[], 11, Publish, Displace(0), Displace(0), Publish)
  {
    t := ReachRemoved(kind);
    ReachPublish(kind, t, 1);
    t := At(t, 1, Publish);
    ReachPublish(kind, t, 4);
    t := At(t, 4, Publish);
  }

  /** 1 acquires; 2 and 3 are still about to displace the lock they judged dead. */
  lemma ReachOvertaken(kind: Kind) returns (t: State)
    ensures Reaches(kind, t)
    ensures InRace(kind, t, Some(1), map[], 11, Holding, Displace(0), Displace(0), Publish)
  {
    t := ReachReclaimed(kind);
    t := RaceStep(kind, t, 1, Go);
    t := RaceStep(kind, t, 1, Go);
    assert t.pc[1] == Scan(true, {}, false);
    t := RaceStep(kind, t, 1, Go);
  }

  /** 2 displaces owner 1, which is not what it judged dead. */
  lemma ReachSecondDisplaced(kind: Kind) returns (t: State)
    ensures Reaches(kind, t)
    ensures InRace(kind, t, None, map[12 := 1], 13, Holding, Compare(0, 12), Displace(0), Publish)
  {
    t := ReachOvertaken(kind);
    t := RaceStep(kind, t, 2, Fresh(12));
  }

  lemma ReachSecondCompared(kind: Kind) returns (t: State)
    ensures Reaches(kind, t)
    ensures InRace(kind, t, None, map[12 := 1], 13, Holding, Restore(12, ToRetry), Displace(0), Publish)
  {
    t := ReachSecondDisplaced(kind);
    t := RaceStep(kind, t, 2, Go);
  }

  /** 4 publishes at the free name. */
  lemma ReachIntruded(kind: Kind) returns (t: State)
    ensures Reaches(kind, t)
    ensures InRace(kind, t, Some(4), map[12 := 1], 13, Holding, Restore(12, ToRetry), Displace(0), Published)
  {
    t := ReachSecondCompared(kind);
    t := RaceStep(kind, t, 4, Go);
  }

  /** 4 lists the quarantines. */
  lemma ReachListed(kind: Kind) returns (t: State)
    ensures Reaches(kind, t)
    ensures InRace(kind, t, Some(4), map[12 := 1], 13,
                   Holding, Restore(12, ToRetry), Displace(0), Scan(true, {12}, false))
  {
    t := ReachIntruded(kind);
    assert t.quarantined.Keys == {12};
    t := RaceStep(kind, t, 4, Go);
  }

  /** 3 displaces 4, which frees the public name again. */
  lemma ReachThirdDisplaced(kind: Kind) returns (t: State)
    ensures Reaches(kind, t)
    ensures InRace(kind, t, None, map[12 := 1, 13 := 4], 14,
                   Holding, Restore(12, ToRetry), Compare(0, 13), Scan(true, {12}, false))
  {
    t := ReachListed(kind);
    t := RaceStep(kind, t, 3, Fresh(13));
  }

  /** 2 puts owner 1 back. */
  lemma ReachLinked(kind: Kind) returns (t: State)
    ensures Reaches(kind, t)
    ensures InRace(kind, t, Some(1), map[12 := 1, 13 := 4], 14,
                   Holding, RmRestored(12, ToRetry), Compare(0, 13), Scan(true, {12}, false))
  {
    t := ReachThirdDisplaced(kind);
    t := RaceStep(kind, t, 2, Go);
  }

  lemma ReachRestored(kind: Kind) returns (t: State)
    ensures Reaches(kind, t)
    ensures InRace(kind, t, Some(1), map[13 := 4], 14,
                   Holding, Exit(kind, ToRetry), Compare(0, 13), Scan(true, {12}, false))
  {
    t := ReachLinked(kind);
    t := RaceStep(kind, t, 2, Go);
  }

  lemma ReachEmptyScan(kind: Kind) returns (t: State)
    ensures Reaches(kind, t)
    ensures InRace(kind, t, Some(1), map[13 := 4], 14,
                   Holding, Exit(kind, ToRetry), Compare(0, 13), Scan(true, {}, false))
  {
    t := ReachRestored(kind);
    t := RaceStep(kind, t, 4, Candidate(12));
    assert t.pc[4] == Scan(true, {}, false);
  }

  /** 4 finds the name it listed gone, concludes that nothing blocks, and holds the lock
      beside 1. */
  lemma ReachBothHolding(kind: Kind) returns (t: State)
    ensures Reaches(kind, t)
    ensures InRace(kind, t, Some(1), map[13 := 4], 14, Holding, Exit(kind, ToRetry), Compare(0, 13), Holding)
  {
    t := ReachEmptyScan(kind);
    t := RaceStep(kind, t, 4, Go);
  }

  /** Putting owner 1 back was not careful: exclusion can fail. */
  lemma CarelessRestorationRace(kind: Kind)
    ensures exists es: seq<Event> :: !Exclusive(Exec(Init(kind), es))
  {
    var t := ReachBothHolding(kind);
    assert Holds(t, 1) && Holds(t, 4);
  }

  // ----- control flow around failures

  /** The release has begun and is not over. */
  predicate Releasing(pc: Pc) {
    || pc.Relinquish? || pc.OwnCompare? || pc.RmOwn? || pc.SweepList? || pc.Sweep? || pc.SweepRm? || pc.Failed?
    || ((pc.Restore? || pc.RestoreCompare? || pc.RmRestored?) && pc.next == ToSweep)
  }

  /** An exception touches no link and forgets no owner: one that has published and does not hold
      relinquishes, a release that fails can be tried again, and only an acquisition that has not
      published is over. */
  lemma ThrowForgetsNoOwner(s: State, a: Actor)
    requires Live(s, a)
    ensures var t := Apply(s, Do(a, Throw));
            && t == At(s, a, t.pc[a])
            && (s.pc[a].Holding? ==> t == s)
            && (IsPublished(s, a) && !s.pc[a].Holding? ==> t.pc[a] == Relinquish)
            && (Releasing(s.pc[a]) ==> t.pc[a] == Failed && Apply(t, Do(a, Release)).pc[a] == Relinquish)
            && (!IsPublished(s, a) && !Releasing(s.pc[a]) ==> t.pc[a] == Done)
  {
  }

  /** Where the kinds differ: what is blocked before publishing, refused by a living owner, or has
      put a foreign link back tries again for the state lock, and is over for a ProcessLock. */
  lemma KindsDifferInPatience(s: State, a: Actor)
    requires Live(s, a)
    ensures s.pc[a] == Scan(false, {}, true) ==> Apply(s, Do(a, Go)).pc[a] == if s.kind == StateLock then Start else Done
    ensures s.pc[a].Judge? && s.pc[a].proof !in s.dead ==> Apply(s, Do(a, Go)).pc[a] == if s.kind == StateLock then Start else Done
    ensures s.pc[a].RmRestored? && s.pc[a].next == ToRetry ==>
              Apply(s, Do(a, Go)) == At(Unlink(s, s.pc[a].q), a, if s.kind == StateLock then Start else Done)
    ensures s.pc[a].RmRestored? && s.pc[a].next == ToSweep ==> Apply(s, Do(a, Go)) == At(Unlink(s, s.pc[a].q), a, SweepList)
  {
  }

  /** A held lock is held until it is released, by nobody but its holder, and a release that failed
      until it is tried again. */
  lemma HeldUntilReleased(s: State, a: Actor, e: Event)
    requires Live(s, a) && (s.pc[a].Holding? || s.pc[a].Failed?)
    ensures var t := Apply(s, e);
            if e == Do(a, Release) then t == At(s, a, Relinquish)
            else t.pc[a] == s.pc[a] && (Live(t, a) <==> !(e.Crash? && a in e.victims))
  {
    if e.Do? && e.actor != a && Live(s, e.actor) { assert Apply(s, e).pc[a] == s.pc[a]; }
  }

  /** A blocking commit fence keeps a state lock's acquisition from beginning and from reclaiming;
      a ProcessLock has none. */
  lemma FenceHoldsBack(s: State, a: Actor)
    requires Live(s, a)
    ensures s.pc[a].Start? ==>
              Apply(s, Do(a, Fenced)) == if s.kind == StateLock then s else At(s, a, Scan(false, s.quarantined.Keys, false))
    ensures s.pc[a].Inspect? && s.lock.Some? ==>
              Apply(s, Do(a, Fenced)) == At(s, a, if s.kind == StateLock then Start else Judge(s.lock.value))
    ensures s.pc[a].Compare? && s.pc[a].q in s.quarantined && s.quarantined[s.pc[a].q] == s.pc[a].proof ==>
              Apply(s, Do(a, Fenced)) == At(s, a, if s.kind == StateLock then Restore(s.pc[a].q, ToRetry) else RmReclaimed(s.pc[a].q))
  {
  }

  /** Only a ProcessLock ends its scan at the first living owner, and may relinquish a second time,
      as it does after being blocked. */
  lemma ScansAndSweepsByKind(s: State, a: Actor, c: Choice)
    requires Live(s, a) && c != Throw
    ensures s.pc[a].Scan? && s.pc[a].blocked && s.pc[a].remaining != {} ==>
              (s.kind == ProcessLock ==> !Apply(s, Do(a, c)).pc[a].Scan?) &&
              (s.kind == StateLock ==> Apply(s, Do(a, c)).pc[a].Scan? || Apply(s, Do(a, c)).pc[a].ScanRm?)
    ensures s.pc[a] == Sweep({}) ==>
              Apply(s, Do(a, c)) == At(s, a, if c == Release && s.kind == ProcessLock then Relinquish else Done)
  {
  }
}
