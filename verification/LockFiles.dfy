/**
 The state lock's file operations run to the end by one acquisition with nobody else moving:
 what each of them leaves in the directory.  Every operation is a solo run of the protocol in
 module LockProtocol, whose state the directory carries along.
 */
module LockFiles {
  import opened Options
  import opened LockProtocol
  import opened LockSolo

  type Links = map<nat, Actor>

  /** Partway through a scan: what is still to be read, and the living owners' links. */
  function Scanned(links: Links, dead: set<Actor>, rest: set<nat>): Links {
    map q | q in links && (q in rest || links[q] !in dead) :: links[q]
  }

  /** Partway through a sweep: what is still to be read, and the others' links. */
  function Swept(links: Links, a: Actor, rest: set<nat>): Links {
    map q | q in links && (q in rest || links[q] != a) :: links[q]
  }

  /** The links of owners that are not dead. */
  function Surviving(links: Links, dead: set<Actor>): Links { Scanned(links, dead, {}) }

  function Except(links: Links, a: Actor): Links { Swept(links, a, {}) }

  lemma ScannedNext(links: Links, dead: set<Actor>, rest: set<nat>, q: nat)
    requires q in rest && rest <= links.Keys
    ensures Scanned(links, dead, rest - {q}) ==
            if links[q] in dead then Scanned(links, dead, rest) - {q} else Scanned(links, dead, rest)
    ensures q in Scanned(links, dead, rest) && Scanned(links, dead, rest)[q] == links[q]
  {
  }

  lemma SweptNext(links: Links, a: Actor, rest: set<nat>, q: nat)
    requires q in rest && rest <= links.Keys
    ensures Swept(links, a, rest - {q}) == if links[q] == a then Swept(links, a, rest) - {q} else Swept(links, a, rest)
    ensures q in Swept(links, a, rest) && Swept(links, a, rest)[q] == links[q]
  {
  }

  class LockDirectory {
    var lock: Option<Actor>
    var quarantined: Links
    var used: set<nat>
    const dead: set<Actor>
    ghost var state: State

    ghost predicate Valid()
      reads this
    {
      && state.kind == StateLock && state.lock == lock && state.quarantined == quarantined
      && state.used == used && state.dead == dead && quarantined.Keys <= used
    }

    /** The directory is right, and `a` has come from `s0` to the given step by itself. */
    ghost predicate Stands(s0: State, a: Actor, pc: Pc)
      reads this
    {
      Valid() && Live(state, a) && state.pc[a] == pc && Solo(s0, state, a)
    }

    /** Some owner that is not dead has a link, at the public name or in quarantine. */
    ghost predicate Taken()
      reads this
    {
      (lock.Some? && lock.value !in dead) || exists q :: q in quarantined && quarantined[q] !in dead
    }

    constructor (a: Actor, dead: set<Actor>)
      requires a !in dead
      ensures Stands(state, a, Start) && lock.None? && quarantined == map[] && this.dead == dead
    {
      this.dead := dead;
      lock, quarantined, used := None, map[], {};
      state := State(StateLock, None, map[], {}, map[a := Start], dead);
      new;
      SoloStays(state, a);
    }

    /** One quarantine name: of a living owner it blocks, of a dead one it is removed. */
    method Examine(a: Actor, q: nat, ghost s0: State, ghost post: bool, ghost rest: set<nat>, blocked: bool) returns (now: bool)
      requires Stands(s0, a, Scan(post, rest, blocked)) && q in rest && q in quarantined
      modifies this`quarantined, this`state
      ensures Stands(s0, a, Scan(post, rest - {q}, now)) && now == (blocked || old(quarantined)[q] !in dead)
      ensures quarantined == if old(quarantined)[q] in dead then old(quarantined) - {q} else old(quarantined)
    {
      state := ScansOne(s0, state, a, post, rest, blocked, q);
      if quarantined[q] !in dead { return true; }
      quarantined := quarantined - {q};
      return blocked;
    }

    /** Blocked by any living owner; the links of dead ones are removed on the way. */
    method HasBlockingQuarantine(a: Actor, ghost s0: State, ghost post: bool) returns (blocked: bool)
      requires Stands(s0, a, if post then Published else Start)
      modifies this`quarantined, this`state
      ensures Stands(s0, a, Scan(post, {}, blocked)) && quarantined == Surviving(old(quarantined), dead)
      ensures blocked <==> exists q :: q in old(quarantined) && old(quarantined)[q] !in dead
    {
      ghost var links := quarantined;
      blocked := false;
      var rest := quarantined.Keys;
      state := ListsQuarantines(s0, state, a, post);
      assert quarantined == Scanned(links, dead, rest);
      while rest != {}
        invariant Stands(s0, a, Scan(post, rest, blocked))
        invariant rest <= links.Keys && quarantined == Scanned(links, dead, rest)
        invariant blocked <==> exists q :: q in links && q !in rest && links[q] !in dead
      {
        var q :| q in rest;
        ScannedNext(links, dead, rest, q);
        blocked := Examine(a, q, s0, post, rest, blocked);
        rest := rest - {q};
      }
      assert quarantined == Surviving(links, dead);
    }

    method SweepName(a: Actor, q: nat, ghost s0: State, ghost rest: set<nat>)
      requires Stands(s0, a, Sweep(rest)) && q in rest && q in quarantined
      modifies this`quarantined, this`state
      ensures Stands(s0, a, Sweep(rest - {q}))
      ensures quarantined == if old(quarantined)[q] == a then old(quarantined) - {q} else old(quarantined)
    {
      state := SweepsOne(s0, state, a, rest, q);
      if quarantined[q] == a { quarantined := quarantined - {q}; }
    }

    method SweepAll(a: Actor, ghost s0: State)
      requires Stands(s0, a, Sweep(quarantined.Keys))
      modifies this`quarantined, this`state
      ensures Stands(s0, a, Sweep({})) && quarantined == Swept(old(quarantined), a, {})
    {
      ghost var links := quarantined;
      var rest := quarantined.Keys;
      assert quarantined == Swept(links, a, rest);
      while rest != {}
        invariant Stands(s0, a, Sweep(rest))
        invariant rest <= links.Keys && quarantined == Swept(links, a, rest)
      {
        var q :| q in rest;
        SweptNext(links, a, rest, q);
        SweepName(a, q, s0, rest);
        rest := rest - {q};
      }
    }

    /** The sweep at the end of a release. */
    method RemoveOwn(a: Actor, ghost s0: State)
      requires Stands(s0, a, SweepList)
      modifies this`quarantined, this`state
      ensures Stands(s0, a, Done) && quarantined == Except(old(quarantined), a)
    {
      state := SweepBegins(s0, state, a);
      SweepAll(a, s0);
      state := SweepEnds(s0, state, a);
    }

    /** Puts a displaced link back at the free public name. */
    method RestoreQuarantined(q: nat)
      requires lock.None? && q in quarantined
      modifies this`lock, this`quarantined
      ensures lock == Some(old(quarantined)[q]) && quarantined == old(quarantined) - {q}
    {
      lock := Some(quarantined[q]);
      quarantined := quarantined - {q};
    }

    /** The public link, if it is the owner's, goes; a foreign one is put back. */
    method DropPublic(a: Actor, name: nat, ghost s0: State)
      requires Stands(s0, a, LockProtocol.Relinquish) && name !in used && lock.Some?
      modifies this
      ensures Stands(s0, a, SweepList)
      ensures lock == (if old(lock) == Some(a) then None else old(lock)) && quarantined == old(quarantined)
    {
      state := DisplacesOwn(s0, state, a, name);
      used := used + {name};
      quarantined := quarantined[name := lock.value];
      lock := None;
      assert quarantined - {name} == old(quarantined);
      if quarantined[name] == a {
        quarantined := quarantined - {name};
      } else {
        RestoreQuarantined(name);
      }
    }

    /** Every link of the owner goes, wherever it is, and nobody else's. */
    method Relinquish(a: Actor, name: nat, ghost s0: State)
      requires Stands(s0, a, LockProtocol.Relinquish) && name !in used
      modifies this
      ensures Stands(s0, a, Done)
      ensures lock == (if old(lock) == Some(a) then None else old(lock)) && quarantined == Except(old(quarantined), a)
    {
      if lock.Some? {
        DropPublic(a, name, s0);
      } else {
        state := NothingToDisplace(s0, state, a, name);
      }
      RemoveOwn(a, s0);
    }

    /** A dead owner's public link is removed; a living one's is left alone. */
    method ReclaimStale(a: Actor, name: nat, ghost s0: State) returns (free: bool)
      requires Stands(s0, a, Inspect) && name !in used && lock.Some?
      modifies this
      ensures Stands(s0, a, Start) && quarantined == old(quarantined)
      ensures lock == (if old(lock).value in dead then None else old(lock)) && (free <==> lock.None?)
    {
      state := Judges(s0, state, a);
      if lock.value !in dead { return false; }
      state := RemovesStale(s0, state, a, name);
      used := used + {name};
      quarantined := quarantined[name := lock.value];
      lock := None;
      quarantined := quarantined - {name};
      assert quarantined == old(quarantined);
      return true;
    }

    /** link(owner, path): published if the name was free. */
    method Link(a: Actor, ghost s0: State) returns (published: bool)
      requires Stands(s0, a, Scan(false, {}, false))
      modifies this`lock, this`state
      ensures published <==> old(lock).None?
      ensures Stands(s0, a, if published then Published else Inspect) && lock == if published then Some(a) else old(lock)
    {
      state := ScanEnds(s0, state, a, false, false);
      state := Publishes(s0, state, a);
      if lock.Some? { return false; }
      lock := Some(a);
      return true;
    }

    /** The first half of an attempt: scanned, and linked unless blocked. */
    method Attempt(a: Actor, ghost s0: State) returns (published: bool, blocked: bool)
      requires Stands(s0, a, Start)
      modifies this`lock, this`quarantined, this`state
      ensures quarantined == Surviving(old(quarantined), dead)
      ensures blocked <==> exists q :: q in old(quarantined) && old(quarantined)[q] !in dead
      ensures published <==> !blocked && old(lock).None?
      ensures Stands(s0, a, if blocked then Start else if published then Published else Inspect)
      ensures lock == if published then Some(a) else old(lock)
    {
      published := false;
      blocked := HasBlockingQuarantine(a, s0, false);
      if blocked {
        state := ScanEnds(s0, state, a, false, true);
      } else {
        published := Link(a, s0);
      }
    }

    /** The second half: scanned again, and held. */
    method Confirm(a: Actor, ghost s0: State)
      requires Stands(s0, a, Published) && quarantined == map[]
      modifies this`quarantined, this`state
      ensures Stands(s0, a, Holding) && quarantined == map[]
    {
      var blocked := HasBlockingQuarantine(a, s0, true);
      state := ScanEnds(s0, state, a, true, false);
    }

    /** A second attempt, after the lock of a dead owner was found. */
    method Retry(a: Actor, name: nat, ghost s0: State) returns (published: bool)
      requires Stands(s0, a, Inspect) && name !in used && lock.Some? && quarantined == map[]
      modifies this
      ensures quarantined == map[] && (published <==> old(lock).value in dead)
      ensures Stands(s0, a, if published then Published else Start) && lock == if published then Some(a) else old(lock)
    {
      var free := ReclaimStale(a, name, s0);
      if !free { return false; }
      var blocked;
      published, blocked := Attempt(a, s0);
    }

    /** The acquisition is a solo run of the protocol that ends holding the lock exactly when no
        living owner had a link; its own is then the only one. */
    method Acquire(a: Actor, name: nat) returns (ok: bool)
      requires Stands(state, a, Start) && name !in used
      modifies this
      ensures Stands(old(state), a, if ok then Holding else Start)
      ensures ok <==> !old(Taken())
      ensures ok ==> lock == Some(a) && quarantined == map[]
      ensures !ok ==> lock == old(lock) && quarantined == Surviving(old(quarantined), dead)
    {
      ghost var s0 := state;
      var published, blocked := Attempt(a, s0);
      if blocked { return false; }
      assert quarantined == map[];
      if !published {
        published := Retry(a, name, s0);
        if !published { return false; }
      }
      Confirm(a, s0);
      return true;
    }
  }
}
