/**
 Where what the Relay holds comes from: over every run, each accepted generation, setup and
 tunnel goes back to an event of the run that presented a genuine capability.
 */
module RelayProvenance {
  import opened Options
  import opened Capability
  import opened Relay

  type Trace = seq<(int, Event)>

  /** The event registered `entry` with a capability that was genuine at the time. */
  predicate Grants(c: Config, e: (int, Event), entry: (nat, Generation)) {
    && e.1.Register? && Genuine(e.1.token, c.installation, e.0)
    && e.1.token.payload.routeId == entry.0 && GenerationOf(e.1.token) == entry.1
  }

  /** The event accepted the connection behind `claim` with such a capability. */
  predicate Vouches(c: Config, e: (int, Event), claim: Claim) {
    && e.1.AcceptTunnel? && Genuine(e.1.token, c.installation, e.0)
    && e.1.token.payload.routeId == claim.route && OwnerOf(e.1.token.payload) == claim.owner
  }

  ghost predicate Granted(c: Config, es: Trace, entry: (nat, Generation)) {
    exists k :: 0 <= k < |es| && Grants(c, es[k], entry)
  }

  ghost predicate Vouched(c: Config, es: Trace, claim: Claim) {
    exists k :: 0 <= k < |es| && Vouches(c, es[k], claim)
  }

  /** Everything in the state goes back to the trace. */
  ghost predicate Sourced(c: Config, es: Trace, s: State) {
    && (forall i :: 0 <= i < |s.accepted| ==> Granted(c, es, s.accepted[i]))
    && (forall r :: r in s.auths ==> Granted(c, es, (r, s.auths[r])))
    && (forall x :: x in s.setups ==> Vouched(c, es, s.setups[x]))
    && (forall x :: x in s.active ==> Vouched(c, es, s.active[x]))
  }

  lemma MoreGranted(c: Config, es: Trace, e: (int, Event), entry: (nat, Generation))
    requires Granted(c, es, entry) || Grants(c, e, entry)
    ensures Granted(c, es + [e], entry)
  {
    assert (es + [e])[|es|] == e;
    if k :| 0 <= k < |es| && Grants(c, es[k], entry) { assert (es + [e])[k] == es[k]; }
  }

  lemma MoreVouched(c: Config, es: Trace, e: (int, Event), claim: Claim)
    requires Vouched(c, es, claim) || Vouches(c, e, claim)
    ensures Vouched(c, es + [e], claim)
  {
    assert (es + [e])[|es|] == e;
    if k :| 0 <= k < |es| && Vouches(c, es[k], claim) { assert (es + [e])[k] == es[k]; }
  }

  /** What is new in `t` is due to `e`, and setups that become active are not new. */
  ghost predicate DueTo(c: Config, s: State, e: (int, Event), t: State) {
    && s.accepted <= t.accepted
    && (forall i :: |s.accepted| <= i < |t.accepted| ==> Grants(c, e, t.accepted[i]))
    && (forall r :: r in t.auths ==> (r in s.auths && t.auths[r] == s.auths[r]) || Grants(c, e, (r, t.auths[r])))
    && (forall x :: x in t.setups ==> (x in s.setups && t.setups[x] == s.setups[x]) || Vouches(c, e, t.setups[x]))
    && (forall x :: x in t.active ==>
          (x in s.active && t.active[x] == s.active[x]) || (x in s.setups && t.active[x] == s.setups[x]))
  }

  lemma SourcedStays(c: Config, es: Trace, s: State, e: (int, Event), t: State)
    requires Sourced(c, es, s) && DueTo(c, s, e, t)
    ensures Sourced(c, es + [e], t)
  {
    forall i | 0 <= i < |t.accepted| ensures Granted(c, es + [e], t.accepted[i]) { MoreGranted(c, es, e, t.accepted[i]); }
    forall r | r in t.auths ensures Granted(c, es + [e], (r, t.auths[r])) { MoreGranted(c, es, e, (r, t.auths[r])); }
    forall x | x in t.setups ensures Vouched(c, es + [e], t.setups[x]) { MoreVouched(c, es, e, t.setups[x]); }
    forall x | x in t.active ensures Vouched(c, es + [e], t.active[x]) { MoreVouched(c, es, e, t.active[x]); }
  }

  /** Nothing is added but tunnels that were being set up. */
  ghost predicate Adds(s: State, t: State) {
    && t.accepted == s.accepted
    && (forall r :: r in t.auths ==> r in s.auths && t.auths[r] == s.auths[r])
    && (forall x :: x in t.setups ==> x in s.setups && t.setups[x] == s.setups[x])
    && (forall x :: x in t.active ==> (x in s.active && t.active[x] == s.active[x]) || (x in s.setups && t.active[x] == s.setups[x]))
  }

  lemma CurrentAddsNothing(s: State, r: nat)
    ensures Adds(s, Current(s, r)) && Current(s, r).now == s.now
  {
  }

  lemma PruneAddsNothing(s: State, r: nat)
    ensures Adds(s, Prune(s, r))
  {
  }

  lemma EnrollIsDue(c: Config, s: State, at: int, socket: nat, token: Token, profile: Option<Principal>)
    requires Genuine(token, c.installation, at)
    ensures DueTo(c, s, (at, Register(socket, token, profile)),
                  Enroll(c, s, socket, token.payload.routeId, LoginOf(token.payload), GenerationOf(token)))
  {
    var r, g := token.payload.routeId, GenerationOf(token);
    var t := Enroll(c, s, socket, r, LoginOf(token.payload), g);
    EnrollEffects(c, s, socket, r, LoginOf(token.payload), g);
    OneGrantIsDue(c, s, (at, Register(socket, token, profile)), t, r, g);
  }

  lemma EnrollEffects(c: Config, s: State, socket: nat, r: nat, login: Option<LoginId>, g: Generation)
    ensures var t := Enroll(c, s, socket, r, login, g);
            && t.setups == s.setups && t.active == s.active
            && ((t.accepted == s.accepted && t.auths == s.auths) || (t.accepted == s.accepted + [(r, g)] && t.auths == s.auths[r := g]))
  {
    var s2 := DropOldLogin(s, r, login);
    assert s2 == s.(logins := s2.logins);
  }

  lemma OneGrantIsDue(c: Config, s: State, e: (int, Event), t: State, r: nat, g: Generation)
    requires Grants(c, e, (r, g)) && t.setups == s.setups && t.active == s.active
    requires (t.accepted == s.accepted && t.auths == s.auths) || (t.accepted == s.accepted + [(r, g)] && t.auths == s.auths[r := g])
    ensures DueTo(c, s, e, t)
  {
  }

  lemma DueAfter(c: Config, s: State, u: State, e: (int, Event), t: State)
    requires Adds(s, u) && u.active.Keys <= s.active.Keys && DueTo(c, u, e, t)
    ensures DueTo(c, s, e, t)
  {
  }

  lemma RegisterIsDue(c: Config, s: State, at: int, socket: nat, token: Token, profile: Option<Principal>)
    requires s.now == at
    ensures DueTo(c, s, (at, Register(socket, token, profile)), StepRegister(c, s, socket, token, profile))
  {
    var r := token.payload.routeId;
    VerifiesExactlyWhenGenuine(token, c.installation, at);
    if socket !in s.registrations && Presentable(c, s, token, profile) {
      CurrentAddsNothing(s, r);
      EnrollIsDue(c, Current(s, r), at, socket, token, profile);
      DueAfter(c, s, Current(s, r), (at, Register(socket, token, profile)), StepRegister(c, s, socket, token, profile));
    }
  }

  lemma AcceptIsDue(c: Config, s: State, at: int, token: Token, k: nat, open: bool)
    requires s.now == at
    ensures DueTo(c, s, (at, AcceptTunnel(token, k, open)), StepAccept(c, s, token, k, open))
  {
    var t := StepAccept(c, s, token, k, open);
    if Verifies(token, c.installation, at) && k in s.pending && s.pending[k].route == token.payload.routeId {
      VerifiesExactlyWhenGenuine(token, c.installation, at);
      var r, owner := token.payload.routeId, OwnerOf(token.payload);
      var s1 := Current(s, r);
      CurrentAddsNothing(s, r);
      SetUpIsDue(c, Withdraw(s1, k), (at, AcceptTunnel(token, k, open)), r, owner);
    }
  }

  lemma SetUpIsDue(c: Config, s: State, e: (int, Event), r: nat, owner: Option<LoginId>)
    requires Vouches(c, e, Claim(r, owner))
    ensures DueTo(c, s, e, SetUp(s, r, owner))
  {
  }

  lemma FailSetupAdds(s: State, x: nat)
    ensures Adds(s, FailSetup(s, x))
  {
    if x in s.setups { PruneAddsNothing(Abort(s, x), s.setups[x].route); }
  }

  lemma ReadyAdds(s: State, x: nat, open: bool)
    ensures Adds(s, StepReady(s, x, open))
  {
    if x in s.setups {
      var r := s.setups[x].route;
      CurrentAddsNothing(s, r);
      var s1 := Current(s, r);
      if r !in s1.auths || !open { FailSetupAdds(s1, x); } else { PruneAddsNothing(Activate(s1, x), r); }
    }
  }

  lemma OthersAdd(c: Config, s: State, e: Event)
    requires !e.Register? && !e.AcceptTunnel?
    ensures Adds(s, Handle(c, s, e))
  {
    match e
    case Connect(r, _, _) => CurrentAddsNothing(s, r);
    case ClearPending(k) => if k in s.pending { PruneAddsNothing(Withdraw(s, k), s.pending[k].route); }
    case TunnelReady(x, open) => ReadyAdds(s, x, open);
    case SetupFailed(x) => FailSetupAdds(s, x);
    case TunnelClosed(x) => if x in s.active { PruneAddsNothing(Close(s, x), s.active[x].route); }
    case ControlClosed(socket) =>
      if socket in s.registrations { PruneAddsNothing(Unregister(s, s.registrations[socket]), s.registrations[socket].route); }
    case CheckAuthorization(r) => CurrentAddsNothing(s, r);
  }

  lemma StepIsDue(c: Config, s0: State, at: int, e: Event)
    ensures DueTo(c, s0, (at, e), Step(c, s0, at, e))
  {
    if at >= s0.now {
      var s := s0.(now := at);
      if e.Register? { RegisterIsDue(c, s, at, e.socket, e.token, e.profile); }
      else if e.AcceptTunnel? { AcceptIsDue(c, s, at, e.token, e.connection, e.open); }
      else { OthersAdd(c, s, e); }
    }
  }

  lemma {:induction false} RunIsSourced(c: Config, before: Trace, s: State, es: Trace)
    requires Sourced(c, before, s)
    ensures Sourced(c, before + es, Run(c, s, es))
    decreases |es|
  {
    if es == [] {
      assert before + es == before;
    } else {
      StepIsDue(c, s, es[0].0, es[0].1);
      SourcedStays(c, before, s, es[0], Step(c, s, es[0].0, es[0].1));
      RunIsSourced(c, before + [es[0]], Step(c, s, es[0].0, es[0].1), es[1..]);
      assert before + [es[0]] + es[1..] == before + es;
    }
  }

  /** Over every run: each accepted generation and each authorization held comes from a Register
      event, each setup and tunnel from an AcceptTunnel event, whose capability was authentic,
      not expired in any way at the time, and, if provisioned, of the Relay's installation. */
  lemma NothingComesFromForgery(c: Config, es: Trace)
    ensures Sourced(c, es, Run(c, Init(), es))
  {
    RunIsSourced(c, [], Init(), es);
    assert [] + es == es;
  }
}
