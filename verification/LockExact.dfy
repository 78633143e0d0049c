/**
 Exactly when the lock protocol excludes: from any state of the invariant, disciplined
 continuations keep one holder if and only if every two contenders are covered.
 */
module LockExact {
  import opened Options
  import opened LockProtocol

  /** A run in which nothing is put back at the public name leads from `s` to `t`. */
  ghost predicate Quietly(s: State, t: State) {
    exists es: seq<Event> :: Disciplined(s, es) && Exec(s, es) == t
  }

  lemma StaysQuietly(s: State)
    ensures Quietly(s, s)
  {
    assert Exec(s, []) == s && Disciplined(s, []);
  }

  lemma {:induction false} DisciplinedSnoc(s: State, es: seq<Event>, e: Event)
    requires Disciplined(s, es) && !Restores(Exec(s, es), e)
    ensures Disciplined(s, es + [e])
    decreases |es|
  {
    if es == [] {
      assert es + [e] == [e] && [e][1..] == [];
      assert Disciplined(Apply(s, e), []);
    } else {
      assert (es + [e])[1..] == es[1..] + [e];
      DisciplinedSnoc(Apply(s, es[0]), es[1..], e);
    }
  }

  lemma QuietEvent(s0: State, s: State, e: Event)
    requires Quietly(s0, s) && !Restores(s, e)
    ensures Quietly(s0, Apply(s, e))
  {
    var es: seq<Event> :| Disciplined(s0, es) && Exec(s0, es) == s;
    DisciplinedSnoc(s0, es, e);
    ExecSnoc(s0, es, e);
  }

  /** One more step of `a`; the others stay where they are. */
  lemma QuietStep(s0: State, s: State, a: Actor, c: Choice) returns (t: State)
    requires Quietly(s0, s) && Inv(s) && Live(s, a) && !Restores(s, Do(a, c))
    ensures t == ActorStep(s, a, c) && Quietly(s0, t) && Inv(t) && LocalTo(s, a, t) && Live(t, a)
    ensures var (files, next) := Move(s, a, c);
            t.kind == s.kind && t.lock == files.lock && t.quarantined == files.quarantined && t.pc[a] == next
  {
    t := ActorStep(s, a, c);
    MoveKeepsPcs(s, a, c);
    StepIsLocal(s, a, c);
    QuietEvent(s0, s, Do(a, c));
    ApplyKeepsInv(s, Do(a, c));
  }

  // ----- names that can be made to go

  /** A custodian can take the link `q` of `y` away without putting anything back. */
  ghost predicate Loose(s: State, q: nat, y: Actor) {
    && q in s.quarantined && s.quarantined[q] == y
    && exists c: Actor :: Live(s, c) && Custodian(s.pc[c], q) && (s.lock == Some(y) || Removing(s.pc[c], q))
  }

  lemma LooseUnlessStuck(s: State, q: nat, y: Actor)
    requires q in s.quarantined && s.quarantined[q] == y
    ensures Loose(s, q, y) <==> !Stuck(s, q, y)
  {
    if !Stuck(s, q, y) {
      var k: Actor :| Live(s, k) && Custodian(s.pc[k], q);
      if s.lock != Some(y) {
        var c: Actor :| Live(s, c) && Removing(s.pc[c], q);
        assert Custodian(s.pc[c], q);
      }
    }
  }

  /** `c` has finished with `q`, and nothing else has changed. */
  ghost predicate Removed(s: State, t: State, c: Actor, q: nat) {
    LocalTo(s, c, t) && t.kind == s.kind && t.lock == s.lock && t.quarantined == s.quarantined - {q}
  }

  lemma RemovesQ(s0: State, s: State, c: Actor, q: nat) returns (t: State)
    requires Quietly(s0, s) && Inv(s) && Live(s, c) && Removing(s.pc[c], q)
    ensures Quietly(s0, t) && Inv(t) && Removed(s, t, c, q)
  {
    t := QuietStep(s0, s, c, Go);
  }

  ghost predicate Moved(s: State, t: State, c: Actor) {
    LocalTo(s, c, t) && t.kind == s.kind && t.lock == s.lock && t.quarantined == s.quarantined
  }

  /** With its owner at the public name, the link in hand is a duplicate. */
  lemma FindsDuplicate(s0: State, s: State, c: Actor, q: nat) returns (t: State)
    requires Quietly(s0, s) && Inv(s) && Live(s, c) && q in s.quarantined && s.lock == Some(s.quarantined[q])
    requires (s.pc[c].Restore? || s.pc[c].RestoreCompare?) && s.pc[c].q == q
    ensures Quietly(s0, t) && Inv(t) && Moved(s, t, c) && Live(t, c) && Removing(t.pc[c], q)
  {
    t := s;
    if s.pc[c].Restore? { t := QuietStep(s0, t, c, Go); }
    t := QuietStep(s0, t, c, Go);
  }

  /** The custodian of a living owner's link other than its own finds that out. */
  lemma ComparesLink(s0: State, s: State, c: Actor, q: nat) returns (t: State)
    requires Quietly(s0, s) && Inv(s) && Live(s, c) && q in s.quarantined && s.quarantined[q] !in s.dead && s.quarantined[q] != c
    requires (s.pc[c].Compare? || s.pc[c].OwnCompare?) && s.pc[c].q == q
    ensures Quietly(s0, t) && Inv(t) && Moved(s, t, c) && Live(t, c) && t.pc[c].Restore? && t.pc[c].q == q
  {
    assert Justified(s, c, s.pc[c]);
    t := QuietStep(s0, s, c, Go);
  }

  lemma MovesCompose(s: State, t: State, u: State, c: Actor, q: nat)
    requires Moved(s, t, c)
    ensures Moved(t, u, c) ==> Moved(s, u, c)
    ensures Removed(t, u, c, q) ==> Removed(s, u, c, q)
  {
  }

  /** From any step of custody to the removal. */
  lemma ComesToRemove(s0: State, s: State, c: Actor, q: nat) returns (t: State)
    requires Quietly(s0, s) && Inv(s) && Live(s, c) && q in s.quarantined && s.lock == Some(s.quarantined[q])
    requires s.quarantined[q] !in s.dead && s.quarantined[q] != c && Custodian(s.pc[c], q) && !Removing(s.pc[c], q)
    ensures Quietly(s0, t) && Inv(t) && Moved(s, t, c) && Live(t, c) && Removing(t.pc[c], q)
  {
    if s.pc[c].Compare? || s.pc[c].OwnCompare? {
      var u := ComparesLink(s0, s, c, q);
      t := FindsDuplicate(s0, u, c, q);
      MovesCompose(s, u, t, c, q);
    } else {
      t := FindsDuplicate(s0, s, c, q);
    }
  }

  lemma LooseGoes(s0: State, s: State, q: nat, y: Actor) returns (t: State, c: Actor)
    requires Quietly(s0, s) && Inv(s) && Loose(s, q, y) && Contending(s, y)
    ensures Quietly(s0, t) && Inv(t) && Removed(s, t, c, q) && Live(s, c) && Custodian(s.pc[c], q)
  {
    c :| Live(s, c) && Custodian(s.pc[c], q) && (s.lock == Some(y) || Removing(s.pc[c], q));
    assert c != y;
    if Removing(s.pc[c], q) {
      t := RemovesQ(s0, s, c, q);
    } else {
      var u := ComesToRemove(s0, s, c, q);
      t := RemovesQ(s0, u, c, q);
      MovesCompose(s, u, t, c, q);
    }
  }

  /** The links of the two contenders that one of them has yet to read. */
  ghost function InTheWay(s: State, a: Actor, b: Actor): set<nat> {
    set q | q in Ahead(s, a) + Ahead(s, b) && q in s.quarantined && s.quarantined[q] in {a, b}
  }

  ghost predicate AllLoose(s: State, a: Actor, b: Actor) {
    forall q :: q in InTheWay(s, a, b) ==> Loose(s, q, s.quarantined[q])
  }

  lemma UncoveredIsLoose(s: State, a: Actor, b: Actor)
    requires !OneYields(s, a, b)
    ensures AllLoose(s, a, b)
  {
    forall q | q in InTheWay(s, a, b) ensures Loose(s, q, s.quarantined[q]) {
      LooseUnlessStuck(s, q, s.quarantined[q]);
    }
  }

  /** A custodian has one name in hand, so the others stay loose. */
  lemma RestStaysLoose(s: State, t: State, a: Actor, b: Actor, c: Actor, q: nat)
    requires AllLoose(s, a, b) && Removed(s, t, c, q) && Live(s, c) && Custodian(s.pc[c], q)
    requires Contending(s, a) && Contending(s, b)
    ensures AllLoose(t, a, b) && InTheWay(t, a, b) == InTheWay(s, a, b) - {q} && Contending(t, a) && Contending(t, b)
  {
    assert c != a && c != b;
    assert Ahead(t, a) == Ahead(s, a) && Ahead(t, b) == Ahead(s, b);
    forall r | r in InTheWay(t, a, b) ensures Loose(t, r, t.quarantined[r]) {
      assert r in InTheWay(s, a, b);
      var y := s.quarantined[r];
      var k: Actor :| Live(s, k) && Custodian(s.pc[k], r) && (s.lock == Some(y) || Removing(s.pc[k], r));
      assert k != c;
      assert Live(t, k) && t.pc[k] == s.pc[k];
    }
  }

  lemma {:induction false} WayIsCleared(s0: State, s: State, a: Actor, b: Actor) returns (t: State)
    requires Quietly(s0, s) && Inv(s) && Contending(s, a) && Contending(s, b) && AllLoose(s, a, b)
    ensures Quietly(s0, t) && Inv(t) && Contending(t, a) && Contending(t, b) && InTheWay(t, a, b) == {}
    decreases |InTheWay(s, a, b)|
  {
    if q :| q in InTheWay(s, a, b) {
      var c;
      t, c := LooseGoes(s0, s, q, s.quarantined[q]);
      RestStaysLoose(s, t, a, b, c, q);
      t := WayIsCleared(s0, t, a, b);
    } else {
      t := s;
    }
  }

  // ----- both scans run through

  /** Nothing alive is left to read in the scan of `a`. */
  ghost predicate Clear(s: State, a: Actor) {
    forall q :: q in Ahead(s, a) && q in s.quarantined ==> s.quarantined[q] in s.dead
  }

  /** The owners of all other quarantined links die. */
  lemma OthersDie(s0: State, s: State, a: Actor, b: Actor) returns (t: State)
    requires Quietly(s0, s) && Inv(s) && Contending(s, a) && Contending(s, b) && InTheWay(s, a, b) == {}
    ensures Quietly(s0, t) && Inv(t) && Contending(t, a) && Contending(t, b) && Clear(t, a) && Clear(t, b)
  {
    var victims := s.quarantined.Values - {a, b};
    var e := Crash(victims);
    QuietEvent(s0, s, e);
    ApplyKeepsInv(s, e);
    t := Apply(s, e);
    forall q | q in Ahead(t, a) + Ahead(t, b) && q in t.quarantined ensures t.quarantined[q] in t.dead {
      assert q !in InTheWay(s, a, b);
      assert s.quarantined[q] in s.quarantined.Values;
    }
  }

  /** `b` is where it was, and its scan is no less clear. */
  lemma ClearStays(s: State, t: State, a: Actor, b: Actor)
    requires LocalTo(s, a, t) && b != a && Contending(s, b) && Clear(s, b)
    requires forall q :: q in t.quarantined ==> q in s.quarantined && t.quarantined[q] == s.quarantined[q]
    ensures Contending(t, b) && Clear(t, b)
  {
    assert Ahead(t, b) == Ahead(s, b);
  }

  /** One name, and the removal it may call for. */
  lemma ScansNext(s0: State, s: State, a: Actor, q: nat) returns (t: State)
    requires Quietly(s0, s) && Inv(s) && Contending(s, a) && Clear(s, a) && s.pc[a].Scan? && q in s.pc[a].remaining
    ensures Quietly(s0, t) && Inv(t) && LocalTo(s, a, t) && Live(t, a)
    ensures t.pc[a] == Scan(true, s.pc[a].remaining - {q}, false)
    ensures t.quarantined == s.quarantined - {q}
  {
    t := QuietStep(s0, s, a, Candidate(q));
    if q in s.quarantined { t := QuietStep(s0, t, a, Go); } else { assert s.quarantined - {q} == s.quarantined; }
  }

  lemma {:induction false} ScanRunsThrough(s0: State, s: State, a: Actor) returns (t: State)
    requires Quietly(s0, s) && Inv(s) && Contending(s, a) && Clear(s, a)
    ensures Quietly(s0, t) && Inv(t) && LocalTo(s, a, t) && Holds(t, a)
    ensures forall q :: q in t.quarantined ==> q in s.quarantined && t.quarantined[q] == s.quarantined[q]
    decreases if s.pc[a].Holding? then 0 else 1 + 2 * |s.pc[a].remaining| + if s.pc[a].ScanRm? then 1 else 0
  {
    if s.pc[a].Holding? {
      t := s;
    } else if s.pc[a].ScanRm? {
      t := QuietStep(s0, s, a, Go);
      t := ScanRunsThrough(s0, t, a);
    } else if q :| q in s.pc[a].remaining {
      t := ScansNext(s0, s, a, q);
      t := ScanRunsThrough(s0, t, a);
    } else {
      t := QuietStep(s0, s, a, Go);
    }
  }

  /** Two contenders that are not covered can both come to hold the lock. */
  lemma UncoveredBothHold(s: State, a: Actor, b: Actor) returns (t: State)
    requires Inv(s) && a != b && Contending(s, a) && Contending(s, b) && !OneYields(s, a, b)
    ensures Quietly(s, t) && Holds(t, a) && Holds(t, b)
  {
    StaysQuietly(s);
    UncoveredIsLoose(s, a, b);
    t := WayIsCleared(s, s, a, b);
    t := OthersDie(s, t, a, b);
    var u := ScanRunsThrough(s, t, a);
    ClearStays(t, u, a, b);
    t := ScanRunsThrough(s, u, b);
  }

  // ----- the exact condition

  /** From any state of the invariant, every disciplined continuation keeps at most one live
      holder exactly when of any two contenders one will still read a link, of either, that
      cannot go away. */
  lemma ExclusiveExactlyWhen(s: State)
    requires Inv(s)
    ensures (forall es :: Disciplined(s, es) ==> Exclusive(Exec(s, es))) <==> Covered(s)
  {
    if Covered(s) {
      forall es | Disciplined(s, es) ensures Exclusive(Exec(s, es)) {
        DisciplinedIsCareful(s, es);
        RunKeepsCovered(s, es);
        CoveredIsExclusive(Exec(s, es));
      }
    } else {
      var a: Actor, b: Actor :| a != b && Contending(s, a) && Contending(s, b) && !OneYields(s, a, b);
      var t := UncoveredBothHold(s, a, b);
      var es: seq<Event> :| Disciplined(s, es) && Exec(s, es) == t;
      assert !Exclusive(Exec(s, es));
    }
  }

  /** A restoration, in the middle of any scan, is harmless exactly when it leaves the
      contenders covered. */
  lemma RestorationIsHarmlessExactlyWhen(s: State, e: Event)
    requires Inv(s) && Restores(s, e)
    ensures (forall es :: Disciplined(Apply(s, e), es) ==> Exclusive(Exec(Apply(s, e), es))) <==> Covered(Apply(s, e))
  {
    ApplyKeepsInv(s, e);
    ExclusiveExactlyWhen(Apply(s, e));
  }

  /** Putting back a link whose owner does not contend is always harmless. */
  lemma IdleOwnerMayReturn(s: State, e: Event)
    requires Inv(s) && Covered(s) && Restores(s, e) && !Contending(s, s.quarantined[s.pc[e.actor].q])
    ensures Covered(Apply(s, e))
  {
    var c, r := e.actor, s.pc[e.actor].q;
    var t := Apply(s, e);
    StepIsLocal(s, c, e.choice);
    ContendersStay(s, c, e.choice);
    forall a: Actor, b: Actor | a != b && Contending(t, a) && Contending(t, b) ensures OneYields(t, a, b) {
      assert Contending(s, a) && Contending(s, b);
      forall x: Actor, y: Actor | WillSee(s, x, y) && x in {a, b} && y in {a, b} ensures WillSee(t, x, y) {
        var q: nat :| q in Ahead(s, x) && Stuck(s, q, y);
        assert q != r;
        assert Unkept(s, q) ==> Unkept(t, q);
        assert Unremoved(s, q) ==> Unremoved(t, q);
        assert q in Ahead(t, x) && Stuck(t, q, y);
      }
    }
  }

  /** The restoration of the race in module LockProtocol is of the other kind: the only name
      that scanner 4 has yet to read is one that custodian 2 is about to remove. */
  lemma RaceIsCareless(kind: Kind)
    ensures exists s: State, e: Event :: Reaches(kind, s) && Restores(s, e) && !Covered(Apply(s, e))
  {
    var s := ReachThirdDisplaced(kind);
    var e := Do(2, Go);
    var t := Apply(s, e);
    MoveKeepsPcs(s, 2, Go);
    StepIsLocal(s, 2, Go);
    assert t.pc[2] == RmRestored(12, ToRetry) && t.quarantined == map[12 := 1, 13 := 4] && t.lock == Some(1);
    assert Live(t, 2) && Removing(t.pc[2], 12) && Custodian(t.pc[2], 12);
    assert Ahead(t, 1) == {} && Ahead(t, 4) == {12};
    assert Contending(t, 1) && Contending(t, 4) && !OneYields(t, 1, 4);
    assert Restores(s, e) && !Covered(t);
  }
}
