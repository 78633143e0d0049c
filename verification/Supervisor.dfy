/**
 The app-server supervisor: an owner record, a startup reservation, and the children that
 supervisors have spawned.

 One supervisor works at a time, under the supervisor lock.  It may crash before any of its
 steps; a child may die at any time; a reboot ends every process.  A child stands for one
 process, so a record matches a live process only if that very child is alive.  Sockets,
 probes and timeouts are choices of the environment.
 */
module Supervisor {
  import opened Options

  datatype Owner = Owner(child: nat, nonce: nat)
  datatype Reservation = Reservation(nonce: nat, boot: nat)

  /** Where the supervisor at work is. */
  datatype Phase =
    | Away
    | Starting
    | Restarting
    | Refusing                                        // the recorded child is alive
    | Stopping(record: Owner)                         // it has been signalled
    | Reclaiming(existing: Option<Owner>, forced: bool)
    | Clearing(forced: bool)
    | Reserving
    | Spawning(nonce: nat)
    | Publishing(nonce: nat, child: nat)
    | Polling(nonce: nat, child: nat)
    | Killing(nonce: nat, child: nat, published: bool)
    | Cleaning(nonce: nat, owner: Option<Owner>)      // the child is gone
    | Withdrawing(nonce: nat)

  /** `nonces` gives the startup nonce of every child ever spawned. */
  datatype State = State(
    phase: Phase,
    owner: Option<Owner>,
    reservation: Option<Reservation>,
    boot: nat,
    nextNonce: nat,
    nonces: seq<nat>,
    live: set<nat>)

  datatype Event =
    | Enter(forced: bool)
    | Probe(answers: bool)
    | Inspect
    | Stopped
    | Reclaim
    | Clear
    | Reserve(durable: bool)
    | Spawn(ok: bool)
    | Publish(ok: bool, written: bool)
    | Ready
    | GiveUp
    | Kill
    | Clean
    | Withdraw
    | Crash
    | ChildDies(child: nat)
    | Reboot
    | OperatorUnreserves      // as the refusal asks, once no startup child remains

  function Init(): State { State(Away, None, None, 0, 0, [], {}) }

  predicate Alive(s: State, o: Option<Owner>) { o.Some? && o.value.child in s.live }

  predicate SameNonce(o: Option<Owner>, r: Option<Reservation>) {
    o.Some? && r.Some? && o.value.nonce == r.value.nonce
  }

  /** removeOwnedStartupReservation. */
  function Unreserve(s: State, nonce: nat): State {
    if s.reservation.Some? && s.reservation.value.nonce == nonce then s.(reservation := None) else s
  }

  /** A live recorded child is not replaced: an ordinary start refuses, a forced restart
      signals it unless a reservation of another startup is in the way. */
  function StepInspect(s: State): State {
    if s.phase == Starting then
      if Alive(s, s.owner) then s.(phase := Refusing) else s.(phase := Reclaiming(s.owner, false))
    else if s.phase == Restarting then
      if Alive(s, s.owner) then
        if s.reservation.Some? && !SameNonce(s.owner, s.reservation) then s.(phase := Away)
        else s.(phase := Stopping(s.owner.value))
      else s.(phase := Reclaiming(s.owner, true))
    else if s.phase == Refusing then
      (if SameNonce(s.owner, s.reservation) then s.(reservation := None) else s).(phase := Away)
    else s
  }

  /** reclaimOrRejectStartupReservation. */
  function StepReclaim(s: State): State
    requires s.phase.Reclaiming?
  {
    var next := Clearing(s.phase.forced);
    if s.reservation.None? then s.(phase := next)
    else if SameNonce(s.phase.existing, s.reservation) || s.reservation.value.boot != s.boot
    then s.(reservation := None, phase := next)
    else s.(phase := Away)
  }

  /** The reservation is on disk before the child exists. */
  function StepReserve(s: State, durable: bool): State
    requires s.phase.Reserving?
  {
    var n := s.nextNonce;
    if durable then s.(reservation := Some(Reservation(n, s.boot)), nextNonce := n + 1, phase := Spawning(n))
    else s.(nextNonce := n + 1, phase := Away)
  }

  function StepSpawn(s: State, ok: bool): State
    requires s.phase.Spawning?
  {
    if !ok then s.(phase := Cleaning(s.phase.nonce, None))
    else s.(nonces := s.nonces + [s.phase.nonce], live := s.live + {|s.nonces|}, phase := Publishing(s.phase.nonce, |s.nonces|))
  }

  /** Publishing may fail after the record is on disk. */
  function StepPublish(s: State, ok: bool, written: bool): State
    requires s.phase.Publishing?
  {
    var record := Owner(s.phase.child, s.phase.nonce);
    if ok then s.(owner := Some(record), phase := Polling(s.phase.nonce, s.phase.child))
    else s.(owner := if written then Some(record) else s.owner, phase := Killing(s.phase.nonce, s.phase.child, false))
  }

  function StepReady(s: State): State
    requires s.phase.Polling?
  {
    if s.reservation.Some? && s.reservation.value.nonce == s.phase.nonce
    then s.(reservation := None, phase := Away)
    else s.(phase := Killing(s.phase.nonce, s.phase.child, true))
  }

  function StepKill(s: State): State
    requires s.phase.Killing?
  {
    var record := Owner(s.phase.child, s.phase.nonce);
    s.(live := s.live - {s.phase.child}, phase := Cleaning(s.phase.nonce, if s.phase.published then Some(record) else None))
  }

  /** cleanupSpawnedChild: only this startup's own record goes. */
  function StepClean(s: State): State
    requires s.phase.Cleaning?
  {
    (if s.phase.owner.Some? && s.owner == s.phase.owner then s.(owner := None) else s).(phase := Withdrawing(s.phase.nonce))
  }

  function Step(s: State, e: Event): State {
    match e
    case Enter(forced) => if s.phase == Away then s.(phase := if forced then Restarting else Starting) else s
    case Probe(answers) =>
      if answers && (s.phase == Starting || (s.phase == Restarting && !Alive(s, s.owner))) then s.(phase := Away) else s
    case Inspect => StepInspect(s)
    case Stopped =>
      if !s.phase.Stopping? then s
      else if s.phase.record.child in s.live then s.(phase := Away)
      else s.(phase := Reclaiming(Some(s.phase.record), true))
    case Reclaim => if s.phase.Reclaiming? then StepReclaim(s) else s
    case Clear =>
      if s.phase.Clearing? then s.(owner := None, phase := if s.phase.forced then Starting else Reserving) else s
    case Reserve(durable) => if s.phase.Reserving? then StepReserve(s, durable) else s
    case Spawn(ok) => if s.phase.Spawning? then StepSpawn(s, ok) else s
    case Publish(ok, written) => if s.phase.Publishing? then StepPublish(s, ok, written) else s
    case Ready => if s.phase.Polling? then StepReady(s) else s
    case GiveUp => if s.phase.Polling? then s.(phase := Killing(s.phase.nonce, s.phase.child, true)) else s
    case Kill => if s.phase.Killing? then StepKill(s) else s
    case Clean => if s.phase.Cleaning? then StepClean(s) else s
    case Withdraw => if s.phase.Withdrawing? then Unreserve(s, s.phase.nonce).(phase := Away) else s
    case Crash => s.(phase := Away)
    case ChildDies(child) => s.(live := s.live - {child})
    case Reboot => s.(phase := Away, boot := s.boot + 1, live := {})
    case OperatorUnreserves =>
      if s.phase == Away && s.reservation.Some? && NoneWith(s, s.reservation.value.nonce) then s.(reservation := None) else s
  }

  predicate NoneWith(s: State, nonce: nat) {
    forall c :: c in s.live ==> !(c < |s.nonces| && s.nonces[c] == nonce)
  }

  function Run(s: State, es: seq<Event>): State
    decreases |es|
  {
    if es == [] then s else Run(Step(s, es[0]), es[1..])
  }

  // ----- at most one child, and it is always named

  predicate Recorded(s: State, o: Owner) { o.child < |s.nonces| && s.nonces[o.child] == o.nonce }

  /** The owner record names the child, or the reservation has its nonce, on this boot. */
  predicate Named(s: State, child: nat)
    requires child < |s.nonces|
  {
    || s.owner == Some(Owner(child, s.nonces[child]))
    || s.reservation == Some(Reservation(s.nonces[child], s.boot))
  }

  /** Nonces are never reused; records on disk are of children that existed. */
  ghost predicate Genuine(s: State) {
    && (forall c :: c in s.live ==> c < |s.nonces|)
    && (forall c :: 0 <= c < |s.nonces| ==> s.nonces[c] < s.nextNonce)
    && (forall c, d :: 0 <= c < d < |s.nonces| ==> s.nonces[c] != s.nonces[d])
    && (s.owner.Some? ==> Recorded(s, s.owner.value))
    && (s.reservation.Some? ==> s.reservation.value.nonce < s.nextNonce && s.reservation.value.boot <= s.boot)
  }

  ghost predicate Guarded(s: State) {
    forall c :: c in s.live && c < |s.nonces| ==> Named(s, c)
  }

  ghost predicate AtMostOne(s: State) {
    forall c, d :: c in s.live && d in s.live ==> c == d
  }

  /** What the supervisor at work has established. */
  ghost predicate Aware(s: State) {
    match s.phase
    case Stopping(record) => s.owner == Some(record) && (s.reservation.None? || SameNonce(s.owner, s.reservation))
    case Reclaiming(existing, _) => existing == s.owner && !Alive(s, existing)
    case Clearing(_) => s.live == {} && s.reservation.None?
    case Reserving => s.live == {} && s.reservation.None? && s.owner.None?
    case Spawning(nonce) =>
      s.live == {} && s.owner.None? && s.reservation == Some(Reservation(nonce, s.boot)) && nonce !in s.nonces
    case Publishing(nonce, child) => Startup(s, nonce, child) && s.owner.None?
    case Polling(nonce, child) => Startup(s, nonce, child) && s.owner == Some(Owner(child, nonce))
    case Killing(nonce, child, published) =>
      Startup(s, nonce, child) && (published ==> s.owner == Some(Owner(child, nonce)))
    case Cleaning(nonce, owner) => s.live == {} && (owner.Some? ==> s.owner == owner)
    case Withdrawing(nonce) => s.live == {}
    case _ => true
  }

  /** A startup under way: the child is the only one, and its reservation stands. */
  predicate Startup(s: State, nonce: nat, child: nat) {
    && s.live <= {child} && child < |s.nonces| && s.nonces[child] == nonce
    && s.reservation == Some(Reservation(nonce, s.boot))
  }

  ghost predicate Inv(s: State) { Genuine(s) && Guarded(s) && AtMostOne(s) && Aware(s) }

  /** A dead owner whose nonce is reserved, or a reservation of another boot, leaves nothing
      alive. */
  lemma NothingAlive(s: State)
    requires Genuine(s) && Guarded(s) && !Alive(s, s.owner)
    requires s.reservation.None? || SameNonce(s.owner, s.reservation) || s.reservation.value.boot != s.boot
    ensures s.live == {}
  {
  }

  lemma ReclaimKeepsInv(s: State)
    requires Inv(s) && s.phase.Reclaiming?
    ensures Inv(StepReclaim(s))
  {
  }

  lemma InspectKeepsInv(s: State)
    requires Inv(s)
    ensures Inv(StepInspect(s))
  {
    if s.phase == Refusing && SameNonce(s.owner, s.reservation) { UnreserveIsGuarded(s); }
  }

  /** The reservation of a recorded child names nobody else. */
  lemma UnreserveIsGuarded(s: State)
    requires Genuine(s) && Guarded(s) && SameNonce(s.owner, s.reservation)
    ensures Guarded(s.(reservation := None))
  {
  }

  lemma SpawnKeepsInv(s: State, ok: bool)
    requires Inv(s) && s.phase.Spawning?
    ensures Inv(StepSpawn(s, ok))
  {
  }

  lemma ReserveKeepsInv(s: State, durable: bool)
    requires Inv(s) && s.phase.Reserving?
    ensures Inv(StepReserve(s, durable))
  {
  }

  lemma PublishKeepsInv(s: State, ok: bool, written: bool)
    requires Inv(s) && s.phase.Publishing?
    ensures Inv(StepPublish(s, ok, written))
  {
  }

  lemma ReadyKeepsInv(s: State)
    requires Inv(s) && s.phase.Polling?
    ensures Inv(StepReady(s))
  {
  }

  lemma EndingKeepsInv(s: State)
    requires Inv(s)
    ensures s.phase.Killing? ==> Inv(StepKill(s))
    ensures s.phase.Cleaning? ==> Inv(StepClean(s))
    ensures s.phase.Withdrawing? ==> Inv(Unreserve(s, s.phase.nonce).(phase := Away))
  {
  }

  /** A child's death takes nothing from what anyone knows. */
  lemma DeathKeepsInv(s: State, child: nat)
    requires Inv(s)
    ensures Inv(s.(live := s.live - {child}))
  {
  }

  lemma DisasterKeepsInv(s: State)
    requires Inv(s)
    ensures Inv(s.(phase := Away)) && Inv(s.(phase := Away, boot := s.boot + 1, live := {}))
  {
  }

  lemma OperatorKeepsInv(s: State)
    requires Inv(s)
    ensures Inv(Step(s, OperatorUnreserves))
  {
  }

  lemma PhaseKeepsInv(s: State, e: Event)
    requires Inv(s) && (e.Enter? || e.Probe? || e.Stopped? || e.Clear? || e.GiveUp?)
    ensures Inv(Step(s, e))
  {
    var t := Step(s, e);
    assert t.live == s.live && t.nonces == s.nonces && t.reservation == s.reservation;
    assert forall c :: c in s.live && c < |s.nonces| && Named(s, c) && t.owner == s.owner ==> Named(t, c);
  }

  lemma StepKeepsInv(s: State, e: Event)
    requires Inv(s)
    ensures Inv(Step(s, e))
  {
    match e
    case Inspect => InspectKeepsInv(s);
    case Reclaim => if s.phase.Reclaiming? { ReclaimKeepsInv(s); }
    case Reserve(durable) => if s.phase.Reserving? { ReserveKeepsInv(s, durable); }
    case Spawn(ok) => if s.phase.Spawning? { SpawnKeepsInv(s, ok); }
    case Publish(ok, written) => if s.phase.Publishing? { PublishKeepsInv(s, ok, written); }
    case Ready => if s.phase.Polling? { ReadyKeepsInv(s); }
    case Kill => EndingKeepsInv(s);
    case Clean => EndingKeepsInv(s);
    case Withdraw => EndingKeepsInv(s);
    case Crash => DisasterKeepsInv(s);
    case Reboot => DisasterKeepsInv(s);
    case ChildDies(child) => DeathKeepsInv(s, child);
    case OperatorUnreserves => OperatorKeepsInv(s);
    case _ => PhaseKeepsInv(s, e);
  }

  lemma {:induction false} RunKeepsInv(s: State, es: seq<Event>)
    requires Inv(s)
    ensures Inv(Run(s, es))
    decreases |es|
  {
    if es != [] {
      StepKeepsInv(s, es[0]);
      RunKeepsInv(Step(s, es[0]), es[1..]);
    }
  }

  /** For every crash point, child death, forced restart and reboot: at most one child is
      alive, and it is named by the owner record or by a reservation with its nonce. */
  lemma NeverTwoChildren(es: seq<Event>)
    ensures var s := Run(Init(), es);
            && |s.live| <= 1
            && forall c :: c in s.live ==> c < |s.nonces| && Named(s, c)
  {
    RunKeepsInv(Init(), es);
    var s := Run(Init(), es);
    if c :| c in s.live { assert s.live == {c}; }
  }

  // ----- what does get through

  /** No recorded child is alive, and a reservation is of the recorded child's own startup or
      of another boot. */
  predicate Startable(s: State) {
    && !(s.owner.Some? && s.owner.value.child in s.live)
    && (s.reservation.None? || s.reservation.value.boot != s.boot ||
        (s.owner.Some? && s.owner.value.nonce == s.reservation.value.nonce))
  }

  /** What a start leaves of the reservation when it must leave the child alone. */
  function Leftover(s: State): Option<Reservation> {
    if s.owner.Some? && s.owner.value.child in s.live && s.reservation.Some? && s.reservation.value.nonce == s.owner.value.nonce
    then None else s.reservation
  }

  /** From the lock to the free way, or back. */
  function Approach(s: State): State {
    Step(Step(Step(Step(Step(Step(s, Enter(false)), Probe(false)), Inspect), Inspect), Reclaim), Clear)
  }

  /** An ordinary start that nothing disturbs. */
  function Attempt(s: State): State {
    Step(Step(Step(Step(Approach(s), Reserve(true)), Spawn(true)), Publish(true, true)), Ready)
  }

  /** The state in which the child of a start on `s` runs: alone, recorded, unreserved. */
  function Started(s: State): State {
    State(Away, Some(Owner(|s.nonces|, s.nextNonce)), None, s.boot, s.nextNonce + 1, s.nonces + [s.nextNonce], {|s.nonces|})
  }

  lemma ApproachesExactlyWhen(s: State)
    requires Inv(s) && s.phase == Away
    ensures Approach(s) == if Startable(s) then s.(phase := Reserving, owner := None, reservation := None)
                           else s.(reservation := Leftover(s))
    ensures Startable(s) ==> s.live == {}
  {
    var t := Step(Step(s, Enter(false)), Probe(false));
    assert Inv(t) by { StepKeepsInv(s, Enter(false)); StepKeepsInv(Step(s, Enter(false)), Probe(false)); }
    if !Alive(s, s.owner) {
      assert Step(Step(t, Inspect), Inspect) == s.(phase := Reclaiming(s.owner, false));
      if Startable(s) { NothingAlive(Step(t, Inspect)); }
    }
  }

  /** A start left alone succeeds exactly when no recorded child is alive and no reservation is
      in the way; otherwise it takes nothing away but the living child's own reservation. */
  lemma StartsExactlyWhen(s: State)
    requires Inv(s) && s.phase == Away
    ensures Attempt(s) == if Startable(s) then Started(s) else s.(reservation := Leftover(s))
  {
    ApproachesExactlyWhen(s);
  }

  /** A reservation whose startup crashed before its record was written blocks every start on
      this boot, however often it is tried. */
  lemma CrashedStartupBlocks(s: State)
    requires Inv(s) && (s.phase.Spawning? || s.phase.Publishing?)
    ensures var t := Step(s, Crash); Attempt(t) == t && t.reservation == Some(Reservation(s.phase.nonce, s.boot))
  {
    StepKeepsInv(s, Crash);
    StartsExactlyWhen(Step(s, Crash));
  }

  /** From wherever it comes, a reboot makes the next start succeed. */
  lemma RebootRecovers(s: State)
    requires Inv(s)
    ensures var t := Step(s, Reboot); t.live == {} && t.boot > s.boot && Attempt(t) == Started(t)
  {
    StepKeepsInv(s, Reboot);
    StartsExactlyWhen(Step(s, Reboot));
  }

  /** So does the operator, wherever the supervisor crashed, once no child remains; while one of
      the reserved startup does, the reservation stays. */
  lemma OperatorRecovers(s: State)
    requires Inv(s)
    ensures var t := Step(Step(s, Crash), OperatorUnreserves);
            && (s.live == {} ==> Attempt(t) == Started(t))
            && (forall c :: c in s.live && s.reservation.Some? && s.nonces[c] == s.reservation.value.nonce ==>
                  t == s.(phase := Away))
            && (forall c :: c in s.live && s.reservation.Some? && s.nonces[c] != s.reservation.value.nonce ==>
                  t == s.(phase := Away, reservation := None))
  {
    StepKeepsInv(s, Crash);
    StepKeepsInv(Step(s, Crash), OperatorUnreserves);
    StartsExactlyWhen(Step(Step(s, Crash), OperatorUnreserves));
  }

  /** A live child is never replaced by an ordinary start. */
  lemma LiveChildStays(s: State)
    requires s.phase == Starting && Alive(s, s.owner)
    ensures var t := Step(Step(s, Inspect), Inspect); t.phase == Away && t.owner == s.owner && t.live == s.live
  {
  }

  /** A startup that is given up leaves neither child nor record nor reservation. */
  lemma GivenUpStartup(s: State)
    requires Inv(s) && s.phase.Polling?
    ensures var t := Step(Step(Step(Step(s, GiveUp), Kill), Clean), Withdraw);
            t == s.(phase := Away, owner := None, reservation := None, live := {})
  {
  }

  /** A forced restart of a live recorded child, whether or not it still answers: once it has
      stopped, the records go and an ordinary start follows; a reservation of another startup is
      not overridden. */
  lemma ForcedRestart(s: State, answers: bool)
    requires Inv(s) && s.phase == Away && Alive(s, s.owner)
    ensures var o := s.owner.value;
            var t := Step(Step(Step(s, Enter(true)), Probe(answers)), Inspect);
            var u := Step(Step(Step(Step(t, ChildDies(o.child)), Stopped), Reclaim), Clear);
            if s.reservation.None? || s.reservation.value.nonce == o.nonce
            then u == s.(phase := Starting, owner := None, reservation := None, live := {})
            else t == s
  {
    assert s.live - {s.owner.value.child} == {};
  }

  /** A forced restart without a live recorded child: an endpoint that answers is nobody's to
      restart; otherwise an ordinary start follows exactly when no reservation is in the way. */
  lemma RestartOfNothing(s: State)
    requires Inv(s) && s.phase == Away && !Alive(s, s.owner)
    ensures var t := Step(s, Enter(true));
            && Step(t, Probe(true)) == s
            && Step(Step(Step(Step(t, Probe(false)), Inspect), Reclaim), Clear)
                 == if Startable(s) then s.(phase := Starting, owner := None, reservation := None) else s
  {
  }

  /** A child that does not stop is left alone. */
  lemma StubbornChildStays(s: State)
    requires s.phase.Stopping? && s.phase.record.child in s.live
    ensures Step(s, Stopped) == s.(phase := Away)
  {
  }

  // ----- the supervisor as an object

  datatype Poll = NotYet | Answers | Exited

  /** The endpoint answers before the child is seen to exit and before time is up. */
  predicate AnswersFirst(polls: seq<Poll>) {
    exists i :: 0 <= i < |polls| && polls[i] == Answers && forall k :: 0 <= k < i ==> polls[k] == NotYet
  }

  /** Nothing in the run is a disaster, and nobody dies but `child`. */
  predicate Ordinary(es: seq<Event>, child: nat) {
    forall i :: 0 <= i < |es| ==>
      !es[i].Crash? && !es[i].Reboot? && !es[i].OperatorUnreserves? && (es[i].ChildDies? ==> es[i].child == child)
  }

  /** Nor does anybody die. */
  predicate Calm(es: seq<Event>) {
    forall i :: 0 <= i < |es| ==> !es[i].Crash? && !es[i].Reboot? && !es[i].OperatorUnreserves? && !es[i].ChildDies?
  }

  class AppServerSupervisor {
    var owner: Option<Owner>
    var reservation: Option<Reservation>
    var boot: nat
    var nextNonce: nat
    var nonces: seq<nat>
    var live: set<nat>
    ghost var phase: Phase

    ghost function View(): State
      reads this
    {
      State(phase, owner, reservation, boot, nextNonce, nonces, live)
    }

    constructor ()
      ensures View() == Init()
    {
      owner, reservation, boot, nextNonce, nonces, live := None, None, 0, 0, [], {};
      phase := Away;
    }

    method RemoveOwnedStartupReservation(nonce: nat) returns (removed: bool)
      modifies this`reservation
      ensures View() == Unreserve(old(View()), nonce)
      ensures removed <==> reservation != old(reservation)
    {
      if reservation.None? || reservation.value.nonce != nonce { return false; }
      reservation := None;
      return true;
    }

    method ReclaimOrReject(existing: Option<Owner>) returns (ok: bool)
      requires phase.Reclaiming? && phase.existing == existing
      modifies this`reservation, this`phase
      ensures View() == StepReclaim(old(View()))
      ensures ok <==> phase.Clearing?
    {
      ghost var next := Clearing(phase.forced);
      if reservation.None? { phase := next; return true; }
      if existing.Some? && existing.value.nonce == reservation.value.nonce {
        var _ := RemoveOwnedStartupReservation(reservation.value.nonce);
        phase := next;
        return true;
      }
      if reservation.value.boot != boot {
        var _ := RemoveOwnedStartupReservation(reservation.value.nonce);
        phase := next;
        return true;
      }
      phase := Away;
      return false;
    }

    method ReserveStartup(durable: bool) returns (nonce: nat)
      requires phase.Reserving?
      modifies this
      ensures View() == Step(old(View()), Reserve(durable)) && nonce == old(nextNonce)
    {
      nonce := nextNonce;
      nextNonce := nextNonce + 1;
      if durable { reservation := Some(Reservation(nonce, boot)); }
      phase := if durable then Spawning(nonce) else Away;
    }

    method SpawnChild(nonce: nat, ok: bool) returns (child: nat)
      requires phase == Spawning(nonce)
      modifies this
      ensures View() == Step(old(View()), Spawn(ok)) && child == |old(nonces)|
    {
      child := |nonces|;
      if ok { nonces, live := nonces + [nonce], live + {child}; }
      phase := if ok then Publishing(nonce, child) else Cleaning(nonce, None);
    }

    method PublishOwner(nonce: nat, child: nat, ok: bool, written: bool)
      requires phase == Publishing(nonce, child)
      modifies this
      ensures View() == Step(old(View()), Publish(ok, written))
    {
      if ok || written { owner := Some(Owner(child, nonce)); }
      phase := if ok then Polling(nonce, child) else Killing(nonce, child, false);
    }

    /** The polling loop: until the endpoint answers, the child is gone, or time is up. */
    method AwaitReady(nonce: nat, child: nat, polls: seq<Poll>) returns (ready: bool, ghost es: seq<Event>)
      requires phase == Polling(nonce, child) && reservation.Some? && reservation.value.nonce == nonce
      modifies this
      ensures View() == Run(old(View()), es) && es in {[Ready], [ChildDies(child), GiveUp], [GiveUp]}
      ensures (ready <==> es == [Ready]) && (ready <==> AnswersFirst(polls))
      ensures owner == old(owner) && reservation == if ready then None else old(reservation)
      ensures ready ==> live == old(live)
      ensures live - {child} == old(live) - {child}
      ensures phase == if ready then Away else Killing(nonce, child, true)
    {
      var i := 0;
      while i < |polls|
        invariant View() == old(View()) && i <= |polls| && forall k :: 0 <= k < i ==> polls[k] == NotYet
      {
        if polls[i] == Exited {
          live := live - {child};
          phase := Killing(nonce, child, true);
          RunOfTwo(old(View()), ChildDies(child), GiveUp);
          return false, [ChildDies(child), GiveUp];
        }
        if polls[i] == Answers {
          RunOfOne(View(), Ready);
          var removed := RemoveOwnedStartupReservation(nonce);
          phase := Away;
          return true, [Ready];
        }
        i := i + 1;
      }
      RunOfOne(View(), GiveUp);
      phase := Killing(nonce, child, true);
      return false, [GiveUp];
    }

    /** stopSpawnedChild. */
    method StopChild(nonce: nat, child: nat, published: bool)
      requires phase == Killing(nonce, child, published)
      modifies this
      ensures View() == Step(old(View()), Kill)
      ensures live == old(live) - {child} && owner == old(owner) && reservation == old(reservation)
    {
      live := live - {child};
      phase := Cleaning(nonce, if published then Some(Owner(child, nonce)) else None);
    }

    /** cleanupSpawnedChild: the record first, the reservation in any case. */
    method Cleanup(nonce: nat, record: Option<Owner>)
      requires phase == Cleaning(nonce, record)
      modifies this
      ensures View() == Run(old(View()), [Clean, Withdraw]) && phase == Away && live == old(live)
      ensures owner == (if record.Some? && old(owner) == record then None else old(owner))
      ensures reservation == if old(reservation).Some? && old(reservation).value.nonce == nonce then None else old(reservation)
    {
      RunOfTwo(View(), Clean, Withdraw);
      if record.Some? && owner == record { owner := None; }
      phase := Withdrawing(nonce);
      var _ := RemoveOwnedStartupReservation(nonce);
      phase := Away;
    }

    /** A live owner is left alone; only its own leftover reservation goes. */
    method InspectOwner() returns (dead: bool, ghost es: seq<Event>)
      requires phase == Starting
      modifies this`reservation, this`phase
      ensures View() == Run(old(View()), es) && es == if dead then [Inspect] else [Inspect, Inspect]
      ensures dead <==> !Alive(old(View()), owner)
      ensures phase == if dead then Reclaiming(owner, false) else Away
      ensures reservation == Leftover(old(View()))
    {
      if owner.None? || owner.value.child !in live {
        RunOfOne(View(), Inspect);
        phase := Reclaiming(owner, false);
        return true, [Inspect];
      }
      RunOfTwo(View(), Inspect, Inspect);
      if reservation.Some? && owner.value.nonce == reservation.value.nonce { reservation := None; }
      phase := Away;
      return false, [Inspect, Inspect];
    }

    /** The dead owner's startup is over, or the reservation is of another boot: both go. */
    method ReclaimAndClear(ghost s: State) returns (free: bool, ghost es: seq<Event>)
      requires phase == Reclaiming(owner, false) && View() == Run(s, [Inspect])
      modifies this`owner, this`reservation, this`phase
      ensures View() == Run(s, es) && es == if free then [Inspect, Reclaim, Clear] else [Inspect, Reclaim]
      ensures phase == if free then Reserving else Away
      ensures free <==> (old(reservation).None? || old(reservation).value.boot != boot ||
                         (old(owner).Some? && old(owner).value.nonce == old(reservation).value.nonce))
      ensures free ==> owner.None? && reservation.None?
      ensures !free ==> owner == old(owner) && reservation == old(reservation)
    {
      RunSnoc(s, [Inspect], Reclaim);
      assert [Inspect] + [Reclaim] == [Inspect, Reclaim];
      free := ReclaimOrReject(owner);
      es := [Inspect, Reclaim];
      if free {
        RunSnoc(s, es, Clear);
        assert es + [Clear] == [Inspect, Reclaim, Clear];
        owner := None;
        phase := Reserving;
        es := [Inspect, Reclaim, Clear];
      }
    }

    /** From the first look at the records to their removal. */
    method Prepare(answers: bool) returns (free: bool, ghost es: seq<Event>)
      requires phase == Starting
      modifies this`owner, this`reservation, this`phase
      ensures View() == Run(old(View()), es)
      ensures phase == if free then Reserving else Away
      ensures free <==> !answers && Startable(old(View()))
      ensures free ==> owner.None? && reservation.None?
      ensures !free ==> owner == old(owner) && reservation == if answers then old(reservation) else Leftover(old(View()))
      ensures Calm(es)
    {
      if answers {
        RunOfOne(View(), Probe(true));
        phase := Away;
        return false, [Probe(true)];
      }
      free, es := InspectOwner();
      if free { free, es := ReclaimAndClear(old(View())); }
    }

    /** Reservation, then child, then owner record; what remains to be undone if one fails. */
    method Launch(durable: bool, spawned: bool, published: bool, written: bool)
      returns (nonce: nat, child: nat, ghost es: seq<Event>)
      requires phase.Reserving?
      modifies this
      ensures View() == Run(old(View()), es)
      ensures phase == if !durable then Away
                       else if !spawned then Cleaning(nonce, None)
                       else if published then Polling(nonce, child)
                       else Killing(nonce, child, false)
      ensures nonce == old(nextNonce) && boot == old(boot)
      ensures reservation == if durable then Some(Reservation(nonce, boot)) else old(reservation)
      ensures durable ==> child == |old(nonces)|
      ensures durable && spawned ==> live == old(live) + {child}
      ensures !(durable && spawned) ==> live == old(live)
      ensures owner == if durable && spawned && (published || written) then Some(Owner(child, nonce)) else old(owner)
      ensures Calm(es)
    {
      ghost var s := View();
      child := 0;
      nonce := ReserveStartup(durable);
      es := [Reserve(durable)];
      RunOfOne(s, Reserve(durable));
      if !durable { return; }
      RunSnoc(s, es, Spawn(spawned));
      child := SpawnChild(nonce, spawned);
      es := es + [Spawn(spawned)];
      if !spawned { return; }
      RunSnoc(s, es, Publish(published, written));
      PublishOwner(nonce, child, published, written);
      es := es + [Publish(published, written)];
    }

    /** After the launch: the child answers, or it is stopped and cleaned up after. */
    method Conclude(nonce: nat, child: nat, spawned: bool, published: bool, polls: seq<Poll>)
      returns (ready: bool, ghost es: seq<Event>)
      requires phase == if !spawned then Cleaning(nonce, None)
                        else if published then Polling(nonce, child)
                        else Killing(nonce, child, false)
      requires reservation.Some? && reservation.value.nonce == nonce
      modifies this
      ensures View() == Run(old(View()), es) && phase == Away
      ensures ready <==> spawned && published && AnswersFirst(polls)
      ensures ready ==> live == old(live) && owner == old(owner) && reservation.None?
      ensures !ready ==> reservation.None? && live == (if spawned then old(live) - {child} else old(live))
      ensures !ready && spawned && published ==> owner == if old(owner) == Some(Owner(child, nonce)) then None else old(owner)
      ensures !ready && !(spawned && published) ==> owner == old(owner)
      ensures Ordinary(es, child)
    {
      ghost var s := View();
      var record: Option<Owner> := None;
      ready, es := false, [];
      if spawned {
        if published {
          ready, es := AwaitReady(nonce, child, polls);
          if ready { return; }
          record := Some(Owner(child, nonce));
        }
        RunSnoc(s, es, Kill);
        StopChild(nonce, child, published);
        es := es + [Kill];
      }
      RunAppend(s, es, [Clean, Withdraw]);
      Cleanup(nonce, record);
      es := es + [Clean, Withdraw];
    }

    /** From the free way to a child that answers, or to nothing. */
    method StartChild(durable: bool, spawned: bool, published: bool, written: bool, polls: seq<Poll>)
      returns (started: Option<nat>, ghost es: seq<Event>)
      requires phase.Reserving? && live == {} && owner.None? && reservation.None?
      modifies this
      ensures View() == Run(old(View()), es) && phase == Away && Ordinary(es, |old(nonces)|)
      ensures started.Some? <==> durable && spawned && published && AnswersFirst(polls)
      ensures started.Some? ==>
                && started.value == |old(nonces)| && live == {started.value}
                && owner == Some(Owner(started.value, old(nextNonce))) && reservation.None?
      ensures started.None? ==>
                && live == {} && reservation.None?
                && owner == if durable && spawned && !published && written then Some(Owner(|old(nonces)|, old(nextNonce))) else None
    {
      var nonce, child;
      nonce, child, es := Launch(durable, spawned, published, written);
      if !durable { return None, es; }
      ghost var more;
      var ready;
      ready, more := Conclude(nonce, child, spawned, published, polls);
      RunAppend(old(View()), es, more);
      es := es + more;
      return if ready then Some(child) else None, es;
    }

    /** ensureAppServerLocked, as a run of the machine's steps: the endpoint's first answer, the
        success of each write and of the spawn, and the polls are the environment's. */
    method Ensure(answers: bool, durable: bool, spawned: bool, published: bool, written: bool, polls: seq<Poll>)
      returns (started: Option<nat>, ghost es: seq<Event>)
      requires Inv(View()) && phase == Starting
      modifies this
      ensures View() == Run(old(View()), es) && Inv(View()) && phase == Away && Ordinary(es, |old(nonces)|)
      ensures started.Some? <==>
                !answers && Startable(old(View())) && durable && spawned && published && AnswersFirst(polls)
      ensures started.Some? ==>
                && started.value == |old(nonces)| && live == {started.value}
                && owner == Some(Owner(started.value, old(nextNonce))) && reservation.None?
      ensures !answers && Startable(old(View())) && started.None? ==>
                && live == {} && reservation.None?
                && owner == if durable && spawned && !published && written then Some(Owner(|old(nonces)|, old(nextNonce))) else None
      ensures answers || !Startable(old(View())) ==>
                && owner == old(owner) && live == old(live)
                && reservation == if answers then old(reservation) else Leftover(old(View()))
      ensures old(live) != {} ==> started.None? && owner == old(owner) && live == old(live)
    {
      ghost var s := View();
      var free;
      free, es := Prepare(answers);
      RunKeepsInv(s, es);
      if !free { return None, es; }
      assert live == {};
      ghost var more;
      started, more := StartChild(durable, spawned, published, written, polls);
      RunAppend(s, es, more);
      es := es + more;
      RunKeepsInv(s, es);
    }
  }

  lemma {:induction false} RunAppend(s: State, a: seq<Event>, b: seq<Event>)
    ensures Run(s, a + b) == Run(Run(s, a), b)
    decreases |a|
  {
    if a == [] {
      assert a + b == b;
    } else {
      assert (a + b)[1..] == a[1..] + b;
      RunAppend(Step(s, a[0]), a[1..], b);
    }
  }

  lemma RunOfOne(s: State, e: Event)
    ensures Run(s, [e]) == Step(s, e)
  {
    assert [e][1..] == [];
    assert Run(s, [e]) == Run(Step(s, e), []);
  }

  lemma RunOfTwo(s: State, a: Event, b: Event)
    ensures Run(s, [a, b]) == Step(Step(s, a), b)
  {
    assert [a, b] == [a] + [b];
    RunAppend(s, [a], [b]);
    RunOfOne(s, a);
    RunOfOne(Step(s, a), b);
  }

  lemma RunSnoc(s: State, es: seq<Event>, e: Event)
    ensures Run(s, es + [e]) == Step(Run(s, es), e)
  {
    RunAppend(s, es, [e]);
    RunOfOne(Run(s, es), e);
  }
}
