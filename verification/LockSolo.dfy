/**
 One acquisition of the lock protocol running with nobody else moving: it can come to hold
 the lock exactly when no living owner is linked.
 */
module LockSolo {
  import opened Options
  import opened LockProtocol

  /** Only `a` moves. */
  predicate Alone(es: seq<Event>, a: Actor) {
    forall i :: 0 <= i < |es| ==> es[i].Do? && es[i].actor == a
  }

  /** `a` can get from `s` to `t` by itself. */
  ghost predicate Solo(s: State, t: State, a: Actor) {
    exists es: seq<Event> :: Alone(es, a) && Exec(s, es) == t
  }

  /** A living owner has a link, at the public name or in quarantine. */
  ghost predicate Taken(s: State) {
    exists x: Actor :: x !in s.dead && Linked(s, x)
  }

  // ----- what a solo run can reach

  lemma SoloStays(s: State, a: Actor)
    ensures Solo(s, s, a)
  {
    assert Exec(s, []) == s;
  }

  /** One more step: everything but `a`'s program counter and the files stays. */
  lemma SoloStep(s0: State, s: State, a: Actor, c: Choice) returns (t: State)
    requires Solo(s0, s, a) && Live(s, a)
    ensures t == ActorStep(s, a, c) && Solo(s0, t, a) && Live(t, a)
    ensures var (files, next) := Move(s, a, c);
            && t.kind == s.kind && t.lock == files.lock && t.quarantined == files.quarantined && t.used == files.used
            && t.dead == s.dead && t.pc[a] == next
  {
    MoveKeepsPcs(s, a, c);
    t := ActorStep(s, a, c);
    var es: seq<Event> :| Alone(es, a) && Exec(s0, es) == s;
    ExecSnoc(s0, es, Do(a, c));
    assert Alone(es + [Do(a, c)], a) && Exec(s0, es + [Do(a, c)]) == t;
  }

  // ----- no living owner: the lock is reached

  ghost predicate AllDead(links: map<nat, Actor>, dead: set<Actor>) {
    forall q :: q in links ==> links[q] in dead
  }

  /** Only `a`'s step, the lock and the quarantines may differ. */
  ghost predicate Keeps(s: State, t: State) { t.kind == s.kind && t.dead == s.dead && s.used <= t.used }

  lemma ScansDead(s0: State, s: State, a: Actor, post: bool, rest: set<nat>, q: nat) returns (t: State)
    requires Solo(s0, s, a) && Live(s, a) && s.pc[a] == Scan(post, rest, false)
    requires q in rest && q in s.quarantined && s.quarantined[q] in s.dead
    ensures Solo(s0, t, a) && Live(t, a) && t.pc[a] == Scan(post, rest - {q}, false)
    ensures Keeps(s, t) && t.lock == s.lock && t.quarantined == s.quarantined - {q}
  {
    t := SoloStep(s0, s, a, Candidate(q));
    t := SoloStep(s0, t, a, Go);
  }

  /** A scan over dead owners' links removes them and blocks nobody. */
  lemma {:induction false} ScanClears(s0: State, s: State, a: Actor, post: bool, rest: set<nat>) returns (t: State)
    requires Solo(s0, s, a) && Live(s, a) && s.pc[a] == Scan(post, rest, false)
    requires rest <= s.quarantined.Keys && AllDead(s.quarantined, s.dead)
    ensures Solo(s0, t, a) && Live(t, a) && t.pc[a] == Scan(post, {}, false)
    ensures Keeps(s, t) && t.lock == s.lock && t.quarantined == s.quarantined - rest
    decreases |rest|
  {
    if rest == {} {
      t := s;
    } else {
      var q :| q in rest;
      t := ScansDead(s0, s, a, post, rest, q);
      t := ScanClears(s0, t, a, post, rest - {q});
      assert t.quarantined == s.quarantined - rest;
    }
  }

  /** From the start to the point of publishing. */
  lemma ClearsTheWay(s0: State, s: State, a: Actor) returns (t: State)
    requires Solo(s0, s, a) && Live(s, a) && s.pc[a] == Start && AllDead(s.quarantined, s.dead)
    ensures Solo(s0, t, a) && Live(t, a) && t.pc[a] == Publish
    ensures Keeps(s, t) && t.lock == s.lock && t.quarantined == map[]
  {
    t := SoloStep(s0, s, a, Go);
    t := ScanClears(s0, t, a, false, t.quarantined.Keys);
    assert t.quarantined == map[];
    t := SoloStep(s0, t, a, Go);
  }

  lemma TakesFreeLock(s0: State, s: State, a: Actor) returns (t: State)
    requires Solo(s0, s, a) && Live(s, a) && s.pc[a] == Publish && s.lock.None? && s.quarantined == map[]
    ensures Solo(s0, t, a) && Holds(t, a)
  {
    t := SoloStep(s0, s, a, Go);
    t := SoloStep(s0, t, a, Go);
    assert t.pc[a] == Scan(true, {}, false);
    t := SoloStep(s0, t, a, Go);
  }

  lemma {:induction false} FreshName(used: set<nat>) returns (id: nat)
    ensures id !in used && forall u :: u in used ==> u < id
    decreases |used|
  {
    if used == {} { return 0; }
    var x :| x in used;
    var y := FreshName(used - {x});
    id := if x < y then y else x + 1;
    assert forall u :: u in used ==> u == x || u in used - {x};
  }

  /** A dead owner's lock is judged, displaced and removed. */
  lemma Reclaims(s0: State, s: State, a: Actor, owner: Actor) returns (t: State)
    requires Solo(s0, s, a) && Live(s, a) && s.pc[a] == Publish && s.lock == Some(owner) && owner in s.dead
    requires s.quarantined == map[]
    ensures Solo(s0, t, a) && Live(t, a) && t.pc[a] == Start && Keeps(s, t) && t.lock.None? && t.quarantined == map[]
  {
    t := SoloStep(s0, s, a, Go);
    t := SoloStep(s0, t, a, Go);
    t := SoloStep(s0, t, a, Go);
    assert t.pc[a] == Displace(owner);
    t := Displaces(s0, t, a, owner);
  }

  lemma Displaces(s0: State, s: State, a: Actor, owner: Actor) returns (t: State)
    requires Solo(s0, s, a) && Live(s, a) && s.pc[a] == Displace(owner) && s.lock == Some(owner)
    requires s.quarantined == map[]
    ensures Solo(s0, t, a) && Live(t, a) && t.pc[a] == Start && Keeps(s, t) && t.lock.None? && t.quarantined == map[]
  {
    var id := FreshName(s.used);
    t := SoloStep(s0, s, a, Fresh(id));
    t := SoloStep(s0, t, a, Go);
    t := SoloStep(s0, t, a, Go);
  }

  lemma SoloAcquires(s: State, a: Actor) returns (t: State)
    requires Live(s, a) && s.pc[a] == Start && !Taken(s)
    ensures Solo(s, t, a) && Holds(t, a)
  {
    SoloStays(s, a);
    forall q | q in s.quarantined ensures s.quarantined[q] in s.dead {
      assert s.quarantined[q] in s.quarantined.Values;
      assert Linked(s, s.quarantined[q]);
    }
    t := ClearsTheWay(s, s, a);
    if t.lock.Some? {
      assert Linked(s, t.lock.value);
      t := Reclaims(s, t, a, t.lock.value);
      t := ClearsTheWay(s, t, a);
    }
    t := TakesFreeLock(s, t, a);
  }

  // ----- the protocol's operations, as solo runs

  /** `t` is reached from `s0`, `a` is at `pc`, and the files are as given. */
  ghost predicate Reached(s0: State, s: State, t: State, a: Actor, pc: Pc, lock: Option<Actor>, links: map<nat, Actor>) {
    && Solo(s0, t, a) && Live(t, a) && t.pc[a] == pc && t.kind == s.kind && t.dead == s.dead
    && t.lock == lock && t.quarantined == links
  }

  lemma ListsQuarantines(s0: State, s: State, a: Actor, post: bool) returns (t: State)
    requires Solo(s0, s, a) && Live(s, a) && s.pc[a] == if post then Published else Start
    ensures Reached(s0, s, t, a, Scan(post, s.quarantined.Keys, false), s.lock, s.quarantined) && t.used == s.used
  {
    t := SoloStep(s0, s, a, Go);
  }

  lemma ScansOne(s0: State, s: State, a: Actor, post: bool, rest: set<nat>, blocked: bool, q: nat) returns (t: State)
    requires Solo(s0, s, a) && Live(s, a) && s.kind == StateLock && s.pc[a] == Scan(post, rest, blocked) && q in rest && q in s.quarantined
    ensures t.used == s.used
    ensures if s.quarantined[q] in s.dead
            then Reached(s0, s, t, a, Scan(post, rest - {q}, blocked), s.lock, s.quarantined - {q})
            else Reached(s0, s, t, a, Scan(post, rest - {q}, true), s.lock, s.quarantined)
  {
    t := SoloStep(s0, s, a, Candidate(q));
    if s.quarantined[q] in s.dead { t := SoloStep(s0, t, a, Go); }
  }

  lemma ScanEnds(s0: State, s: State, a: Actor, post: bool, blocked: bool) returns (t: State)
    requires Solo(s0, s, a) && Live(s, a) && s.kind == StateLock && s.pc[a] == Scan(post, {}, blocked) && !(post && blocked)
    ensures t.used == s.used
    ensures Reached(s0, s, t, a, if post then Holding else if blocked then Start else Publish, s.lock, s.quarantined)
  {
    t := SoloStep(s0, s, a, Go);
  }

  lemma Publishes(s0: State, s: State, a: Actor) returns (t: State)
    requires Solo(s0, s, a) && Live(s, a) && s.pc[a] == Publish
    ensures t.used == s.used
    ensures if s.lock.None? then Reached(s0, s, t, a, Published, Some(a), s.quarantined)
            else Reached(s0, s, t, a, Inspect, s.lock, s.quarantined)
  {
    t := SoloStep(s0, s, a, Go);
  }

  lemma Judges(s0: State, s: State, a: Actor) returns (t: State)
    requires Solo(s0, s, a) && Live(s, a) && s.kind == StateLock && s.pc[a] == Inspect && s.lock.Some?
    ensures t.used == s.used
    ensures Reached(s0, s, t, a, if s.lock.value in s.dead then Displace(s.lock.value) else Start, s.lock, s.quarantined)
  {
    t := SoloStep(s0, s, a, Go);
    t := SoloStep(s0, t, a, Go);
  }

  lemma RemovesStale(s0: State, s: State, a: Actor, name: nat) returns (t: State)
    requires Solo(s0, s, a) && Live(s, a) && s.lock.Some? && s.pc[a] == Displace(s.lock.value) && name !in s.used
    requires s.quarantined.Keys <= s.used
    ensures t.used == s.used + {name} && Reached(s0, s, t, a, Start, None, s.quarantined)
  {
    t := SoloStep(s0, s, a, Fresh(name));
    t := SoloStep(s0, t, a, Go);
    t := SoloStep(s0, t, a, Go);
    assert s.quarantined[name := s.lock.value] - {name} == s.quarantined;
  }

  /** The displaced link: the owner's own goes, another's is put back. */
  lemma DisplacesOwn(s0: State, s: State, a: Actor, name: nat) returns (t: State)
    requires Solo(s0, s, a) && Live(s, a) && s.lock.Some? && s.pc[a] == Relinquish && name !in s.used && s.quarantined.Keys <= s.used
    ensures t.used == s.used + {name}
    ensures Reached(s0, s, t, a, SweepList, if s.lock.value == a then None else s.lock, s.quarantined)
  {
    t := SoloStep(s0, s, a, Fresh(name));
    t := SoloStep(s0, t, a, Go);
    var links := s.quarantined[name := s.lock.value];
    assert links - {name} == s.quarantined;
    assert Reached(s0, s, t, a, if s.lock.value == a then RmOwn(name) else Restore(name, ToSweep), None, links);
    t := PutsBack(s0, t, a, name, links);
  }

  lemma PutsBack(s0: State, s: State, a: Actor, name: nat, links: map<nat, Actor>) returns (t: State)
    requires name in links
    requires Reached(s0, s, s, a, if links[name] == a then RmOwn(name) else Restore(name, ToSweep), None, links)
    ensures t.used == s.used
    ensures Reached(s0, s, t, a, SweepList, if links[name] == a then None else Some(links[name]), links - {name})
  {
    t := SoloStep(s0, s, a, Go);
    if links[name] != a { t := SoloStep(s0, t, a, Go); }
  }

  lemma NothingToDisplace(s0: State, s: State, a: Actor, name: nat) returns (t: State)
    requires Solo(s0, s, a) && Live(s, a) && s.lock.None? && s.pc[a] == Relinquish && name !in s.used
    ensures t.used == s.used && Reached(s0, s, t, a, SweepList, None, s.quarantined)
  {
    t := SoloStep(s0, s, a, Fresh(name));
  }

  lemma SweepBegins(s0: State, s: State, a: Actor) returns (t: State)
    requires Solo(s0, s, a) && Live(s, a) && s.pc[a] == SweepList
    ensures t.used == s.used && Reached(s0, s, t, a, Sweep(s.quarantined.Keys), s.lock, s.quarantined)
  {
    t := SoloStep(s0, s, a, Go);
  }

  lemma SweepsOne(s0: State, s: State, a: Actor, rest: set<nat>, q: nat) returns (t: State)
    requires Solo(s0, s, a) && Live(s, a) && s.pc[a] == Sweep(rest) && q in rest && q in s.quarantined
    ensures t.used == s.used
    ensures Reached(s0, s, t, a, Sweep(rest - {q}), s.lock, if s.quarantined[q] == a then s.quarantined - {q} else s.quarantined)
  {
    t := SoloStep(s0, s, a, Candidate(q));
    if s.quarantined[q] == a { t := SoloStep(s0, t, a, Go); }
  }

  lemma SweepEnds(s0: State, s: State, a: Actor) returns (t: State)
    requires Solo(s0, s, a) && Live(s, a) && s.pc[a] == Sweep({})
    ensures t.used == s.used && Reached(s0, s, t, a, Done, s.lock, s.quarantined)
  {
    t := SoloStep(s0, s, a, Go);
  }

  // ----- a living owner: the lock is not reached

  ghost predicate SameFiles(s: State, t: State) {
    s.kind == t.kind && s.lock == t.lock && s.quarantined == t.quarantined && s.used == t.used && s.dead == t.dead
  }

  /** The same files, and `a` at the same step. */
  ghost predicate Alike(s: State, t: State, a: Actor) {
    SameFiles(s, t) && a in s.pc && a in t.pc && s.pc[a] == t.pc[a]
  }

  ghost predicate SameMove(m: (State, Pc), n: (State, Pc)) { SameFiles(m.0, n.0) && m.1 == n.1 }

  lemma SameScans(s: State, t: State, pc: Pc, c: Choice)
    requires SameFiles(s, t) && pc.Scan?
    ensures SameMove(ScanStep(s, pc, c), ScanStep(t, pc, c))
  {
  }

  lemma SameReclaims(s: State, t: State, pc: Pc, c: Choice)
    requires SameFiles(s, t) && (pc.Inspect? || pc.Judge? || pc.Displace? || pc.Compare?)
    ensures SameMove(ReclaimStep(s, pc, c), ReclaimStep(t, pc, c))
  {
  }

  lemma SameRestores(s: State, t: State, pc: Pc)
    requires SameFiles(s, t) && (pc.Restore? || pc.RestoreCompare?)
    ensures SameMove(RestoreStep(s, pc), RestoreStep(t, pc))
  {
  }

  lemma SameRelinquishes(s: State, t: State, a: Actor, pc: Pc, c: Choice)
    requires SameFiles(s, t) && (pc.Relinquish? || pc.OwnCompare? || pc.SweepList? || pc.Sweep?)
    ensures SameMove(RelinquishStep(s, a, pc, c), RelinquishStep(t, a, pc, c))
  {
  }

  /** A step looks at nothing but the files and the actor's own program counter. */
  lemma SameMoves(s: State, t: State, a: Actor, c: Choice)
    requires Alike(s, t, a)
    ensures SameMove(Move(s, a, c), Move(t, a, c))
  {
    var pc := s.pc[a];
    if c != Throw {
      if pc.Scan? { SameScans(s, t, pc, c); }
      else if pc.Inspect? || pc.Judge? || pc.Displace? || pc.Compare? { SameReclaims(s, t, pc, c); }
      else if pc.Restore? || pc.RestoreCompare? { SameRestores(s, t, pc); }
      else if pc.Relinquish? || pc.OwnCompare? || pc.SweepList? || pc.Sweep? { SameRelinquishes(s, t, a, pc, c); }
    }
  }

  lemma AlikeSteps(s: State, t: State, a: Actor, c: Choice)
    requires Alike(s, t, a)
    ensures Alike(ActorStep(s, a, c), ActorStep(t, a, c), a)
  {
    SameMoves(s, t, a, c);
  }

  lemma {:induction false} AlikeRuns(s: State, t: State, a: Actor, es: seq<Event>)
    requires Alike(s, t, a) && Alone(es, a)
    ensures Alike(Exec(s, es), Exec(t, es), a)
    decreases |es|
  {
    if es != [] {
      if a !in s.dead { AlikeSteps(s, t, a, es[0].choice); }
      AlikeRuns(Apply(s, es[0]), Apply(t, es[0]), a, es[1..]);
    }
  }

  /** With `a` alone on the move and `x` holding, the run is disciplined and `x` stays. */
  lemma {:induction false} AloneIsDisciplined(s: State, a: Actor, x: Actor, es: seq<Event>)
    requires Alone(es, a) && a != x && s.pc.Keys == {a, x} && s.pc[x] == Holding
    ensures Disciplined(s, es) && x in Exec(s, es).pc && Exec(s, es).pc[x] == Holding && Exec(s, es).dead == s.dead
    decreases |es|
  {
    if es != [] {
      if Live(s, a) { StepIsLocal(s, a, es[0].choice); }
      AloneIsDisciplined(Apply(s, es[0]), a, x, es[1..]);
    }
  }

  /** Beside a living owner's link, `a` never comes to hold the lock by itself.  Imagine that
      owner holding it: the run is one of two acquisitions, and they exclude each other. */
  lemma NeverBeside(s: State, a: Actor, x: Actor, es: seq<Event>)
    requires Live(s, a) && s.pc[a] == Start && s.quarantined.Keys <= s.used && Alone(es, a)
    requires x != a && x !in s.dead && Linked(s, x)
    ensures !Holds(Exec(s, es), a)
  {
    var t := s.(pc := map[a := Start, x := Holding]);
    assert forall q: nat :: !Doomed(t, q);
    if s.lock != Some(x) {
      var q :| q in s.quarantined && s.quarantined[q] == x;
      assert SafelyQuarantined(t, x);
    }
    assert Inv(t);
    assert Covered(t);
    AloneIsDisciplined(t, a, x, es);
    DisciplinedIsCareful(t, es);
    RunKeepsCovered(t, es);
    CoveredIsExclusive(Exec(t, es));
    AlikeRuns(s, t, a, es);
    if Holds(Exec(s, es), a) { assert Holds(Exec(t, es), a) && Holds(Exec(t, es), x); }
  }

  /** Undisturbed, an acquisition whose own record is not yet linked can come to hold the lock
      exactly when no living owner is linked. */
  lemma HoldsExactlyWhenFree(s: State, a: Actor)
    requires Live(s, a) && s.pc[a] == Start && s.quarantined.Keys <= s.used && !Linked(s, a)
    ensures (exists t :: Solo(s, t, a) && Holds(t, a)) <==> !Taken(s)
  {
    if Taken(s) {
      var x: Actor :| x !in s.dead && Linked(s, x);
      forall t | Solo(s, t, a) ensures !Holds(t, a) {
        var es: seq<Event> :| Alone(es, a) && Exec(s, es) == t;
        NeverBeside(s, a, x, es);
      }
    } else {
      var t := SoloAcquires(s, a);
    }
  }
}
